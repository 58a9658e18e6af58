/** The post routes that edit a fetched post document: like, unlike, add a comment,
    delete a comment, and the ownership check in front of deleting a post. Each handler
    receives the document the database lookup returned (`null` when there was none),
    the acting user's id from the token, and for inserts the id the database mints. */
module Posts {
  import opened Options
  import opened Http
  import opened Sequences

  datatype Like = Like(user: UserId)

  datatype Comment = Comment(id: string, text: string, name: string, avatar: string, user: UserId)

  /** The acting user's record as the comment route reads it: display name and avatar. */
  datatype Author = Author(name: string, avatar: string)

  /** A post document as fetched: owner, likes (newest first) and comments (newest first). */
  class Post {
    const user: UserId
    var likes: seq<Like>
    var comments: seq<Comment>

    constructor (owner: UserId, likes0: seq<Like>, comments0: seq<Comment>)
      ensures user == owner && likes == likes0 && comments == comments0
    {
      user := owner;
      likes := likes0;
      comments := comments0;
    }
  }

  const ReplyAlreadyLiked := Reply(400, "Post already liked")
  const ReplyNotYetLiked := Reply(400, "Post has not yet been liked")
  const ReplyPostNotFound := Reply(404, "Post not found")
  /** What the post routes' catch blocks send, here for a null document's TypeError. */
  const PostServerError := ServerError("Server Error")

  // ---------------------------------------------------------------------------
  // Views of the collections

  /** `likes.map(like => like.user.toString())` */
  function Likers(likes: seq<Like>): (users: seq<UserId>)
    ensures |users| == |likes|
    ensures forall i :: 0 <= i < |likes| ==> users[i] == likes[i].user
  {
    seq(|likes|, i requires 0 <= i < |likes| => likes[i].user)
  }

  /** `likes.filter(like => like.user.toString() === u)` */
  function LikesBy(likes: seq<Like>, u: UserId): seq<Like>
  {
    if likes == [] then []
    else (if likes[0].user == u then [likes[0]] else []) + LikesBy(likes[1..], u)
  }

  /** At most one like per user. */
  ghost predicate UniqueLikers(likes: seq<Like>)
  {
    forall i, j :: 0 <= i < j < |likes| ==> likes[i].user != likes[j].user
  }

  /** `comments.map(comment => comment.id)`, the key `find` compares. Each sub-collection has
      its own id view, as each route writes its own `map`. */
  function CommentIds(comments: seq<Comment>): (ids: seq<string>)
    ensures |ids| == |comments|
    ensures forall i :: 0 <= i < |comments| ==> ids[i] == comments[i].id
  {
    seq(|comments|, i requires 0 <= i < |comments| => comments[i].id)
  }

  /** `comments.map(comment => comment.user.toString())` */
  function CommentAuthors(comments: seq<Comment>): (users: seq<UserId>)
    ensures |users| == |comments|
    ensures forall i :: 0 <= i < |comments| ==> users[i] == comments[i].user
  {
    seq(|comments|, i requires 0 <= i < |comments| => comments[i].user)
  }

  /** The filter is empty exactly when the user is not among the likers. */
  lemma {:induction false} LikesByEmpty(likes: seq<Like>, u: UserId)
    ensures LikesBy(likes, u) == [] <==> u !in Likers(likes)
  {
    if likes != [] {
      LikesByEmpty(likes[1..], u);
      assert Likers(likes) == [likes[0].user] + Likers(likes[1..]);
    }
  }

  // ---------------------------------------------------------------------------
  // Ownership

  /** The ownership check in front of a removal: the acting id must equal the owner's id. */
  function Authorize(actor: UserId, owner: UserId, resource: string): (r: Outcome)
    ensures r.Pass? <==> actor == owner
    ensures r.Fail? ==> r.error.Reply? && r.error.status == 401
  {
    if actor != owner then Fail(Reply(401, "No authorization to remove this " + resource))
    else Pass
  }

  /** DELETE /posts/:id: whether the fetched post may be removed by the acting user.
      Pass means the route goes on to remove it. */
  function DeletePost(post: Post?, actor: UserId): (r: Outcome)
    ensures r.Pass? <==> post != null && actor == post.user
    ensures post == null ==> r == Fail(ReplyPostNotFound)
    ensures post != null && actor != post.user ==>
      r == Fail(Reply(401, "No authorization to remove this post"))
  {
    if post == null then Fail(ReplyPostNotFound)
    else Authorize(actor, post.user, "post")
  }

  // ---------------------------------------------------------------------------
  // Likes

  /** The in-memory step of PUT /posts/like/:id on the post's likes. */
  function LikeResult(likes: seq<Like>, actor: UserId): Result<seq<Like>>
  {
    if |LikesBy(likes, actor)| > 0 then Err(ReplyAlreadyLiked)
    else Ok([Like(actor)] + likes)
  }

  /** The in-memory step of PUT /posts/unlike/:id on the post's likes. */
  function UnlikeResult(likes: seq<Like>, actor: UserId): Result<seq<Like>>
  {
    if |LikesBy(likes, actor)| == 0 then Err(ReplyNotYetLiked)
    else Ok(SpliceOne(likes, IndexOf(Likers(likes), actor)))
  }

  /** PUT /posts/like/:id */
  method LikePost(post: Post?, actor: UserId) returns (r: Outcome)
    modifies post
    ensures post == null ==> r == Fail(PostServerError)
    ensures post != null ==> Saved(r, post.likes) == LikeResult(old(post.likes), actor)
    ensures post != null && r.Fail? ==> post.likes == old(post.likes)
    ensures post != null ==> post.comments == old(post.comments)
  {
    if post == null {
      return Fail(PostServerError);
    }
    if |LikesBy(post.likes, actor)| > 0 {
      return Fail(ReplyAlreadyLiked);
    }
    post.likes := [Like(actor)] + post.likes;
    r := Pass;
  }

  /** PUT /posts/unlike/:id */
  method UnlikePost(post: Post?, actor: UserId) returns (r: Outcome)
    modifies post
    ensures post == null ==> r == Fail(PostServerError)
    ensures post != null ==> Saved(r, post.likes) == UnlikeResult(old(post.likes), actor)
    ensures post != null && r.Fail? ==> post.likes == old(post.likes)
    ensures post != null ==> post.comments == old(post.comments)
  {
    if post == null {
      return Fail(PostServerError);
    }
    if |LikesBy(post.likes, actor)| == 0 {
      return Fail(ReplyNotYetLiked);
    }
    var k := FindIndex(Likers(post.likes), actor);
    post.likes := SpliceOne(post.likes, k);
    r := Pass;
  }

  /** A user who has not liked the post likes it: the new like goes first, the old ones follow. */
  lemma LikeWhenNotLiked(likes: seq<Like>, u: UserId)
    requires u !in Likers(likes)
    ensures LikeResult(likes, u).Ok?
    ensures var l := LikeResult(likes, u).value;
      |l| == |likes| + 1 && l[0] == Like(u) && l[1..] == likes
  {
    LikesByEmpty(likes, u);
  }

  /** A user who has liked the post already is refused, and the likes stay as they were. */
  lemma LikeWhenLiked(likes: seq<Like>, u: UserId)
    requires u in Likers(likes)
    ensures LikeResult(likes, u) == Err(ReplyAlreadyLiked)
  {
    LikesByEmpty(likes, u);
  }

  /** Liking keeps "one like per user". */
  lemma LikeKeepsUnique(likes: seq<Like>, u: UserId)
    requires UniqueLikers(likes)
    requires LikeResult(likes, u).Ok?
    ensures UniqueLikers(LikeResult(likes, u).value)
  {
    LikesByEmpty(likes, u);
    var l := LikeResult(likes, u).value;
    forall i, j | 0 <= i < j < |l| ensures l[i].user != l[j].user {
      assert l[j] == likes[j - 1];
      if i == 0 {
        assert Likers(likes)[j - 1] == likes[j - 1].user;
      } else {
        assert l[i] == likes[i - 1];
      }
    }
  }

  /** Liking a post twice in a row: the second like is refused. */
  lemma LikeTwiceRefused(likes: seq<Like>, u: UserId)
    requires LikeResult(likes, u).Ok?
    ensures LikeResult(LikeResult(likes, u).value, u) == Err(ReplyAlreadyLiked)
  {
    var l := LikeResult(likes, u).value;
    assert Likers(l)[0] == u;
    LikeWhenLiked(l, u);
  }

  /** A user who has not liked the post cannot unlike it, and the likes stay as they were. */
  lemma UnlikeWhenNotLiked(likes: seq<Like>, u: UserId)
    requires u !in Likers(likes)
    ensures UnlikeResult(likes, u) == Err(ReplyNotYetLiked)
  {
    LikesByEmpty(likes, u);
  }

  /** Unliking removes exactly the user's first like; the others keep their order. */
  lemma UnlikeRemovesFirst(likes: seq<Like>, u: UserId)
    requires u in Likers(likes)
    ensures UnlikeResult(likes, u).Ok?
    ensures var k := IndexOf(Likers(likes), u);
      0 <= k < |likes| && likes[k].user == u &&
      (forall j :: 0 <= j < k ==> likes[j].user != u) &&
      UnlikeResult(likes, u).value == likes[..k] + likes[k + 1..]
    ensures |UnlikeResult(likes, u).value| == |likes| - 1
  {
    LikesByEmpty(likes, u);
    var k := IndexOf(Likers(likes), u);
    SpliceOneAt(likes, k);
    forall j | 0 <= j < k ensures likes[j].user != u {
      assert Likers(likes)[..k][j] == likes[j].user;
    }
  }

  /** Unliking keeps "one like per user". */
  lemma UnlikeKeepsUnique(likes: seq<Like>, u: UserId)
    requires UniqueLikers(likes)
    requires UnlikeResult(likes, u).Ok?
    ensures UniqueLikers(UnlikeResult(likes, u).value)
  {
    LikesByEmpty(likes, u);
    UnlikeRemovesFirst(likes, u);
    var k := IndexOf(Likers(likes), u);
    var l := UnlikeResult(likes, u).value;
    assert l == SpliceOne(likes, k);
    SpliceOneAt(likes, k);
    forall i, j | 0 <= i < j < |l| ensures l[i].user != l[j].user {
      var i' := if i < k then i else i + 1;
      var j' := if j < k then j else j + 1;
      assert l[i] == likes[i'] && l[j] == likes[j'];
    }
  }

  /** With one like per user, unliking twice in a row: the second unlike is refused. */
  lemma UnlikeTwiceRefused(likes: seq<Like>, u: UserId)
    requires UniqueLikers(likes)
    requires UnlikeResult(likes, u).Ok?
    ensures UnlikeResult(UnlikeResult(likes, u).value, u) == Err(ReplyNotYetLiked)
  {
    LikesByEmpty(likes, u);
    UnlikeRemovesFirst(likes, u);
    var l := UnlikeResult(likes, u).value;
    UnlikeWhenNotLiked(l, u);
  }

  /** Liking and then unliking, from a post the user had not liked, restores the likes exactly. */
  lemma LikeThenUnlike(likes: seq<Like>, u: UserId)
    requires u !in Likers(likes)
    ensures LikeResult(likes, u).Ok?
    ensures UnlikeResult(LikeResult(likes, u).value, u) == Ok(likes)
  {
    LikeWhenNotLiked(likes, u);
    var l := LikeResult(likes, u).value;
    assert Likers(l)[0] == u;
    assert IndexOf(Likers(l), u) == 0;
    UnlikeRemovesFirst(l, u);
    assert l[..0] + l[1..] == likes;
  }

  /** Like, unlike, like again: the user's likes number exactly one. */
  lemma LikeUnlikeLike(likes: seq<Like>, u: UserId)
    requires u !in Likers(likes)
    ensures LikeResult(likes, u).Ok?
    ensures |LikesBy(LikeResult(likes, u).value, u)| == 1
    ensures UnlikeResult(LikeResult(likes, u).value, u) == Ok(likes)
    ensures LikeResult(UnlikeResult(LikeResult(likes, u).value, u).value, u) == LikeResult(likes, u)
  {
    LikeThenUnlike(likes, u);
    LikesByEmpty(likes, u);
    var l := LikeResult(likes, u).value;
    assert l[1..] == likes;
  }

  /** A client of the handlers: a fresh post, liked by u1, liked again, then unliked. */
  method LikeScenario()
  {
    var post := new Post("owner", [], []);
    var r := LikePost(post, "u1");
    assert r == Pass && post.likes == [Like("u1")];
    assert Likers(post.likes) == ["u1"];
    r := LikePost(post, "u1");
    assert r == Fail(ReplyAlreadyLiked) && post.likes == [Like("u1")];
    r := UnlikePost(post, "u1");
    assert IndexOf(["u1"], "u1") == 0;
    assert r == Pass && post.likes == [];
  }

  // ---------------------------------------------------------------------------
  // Comments

  /** The comment the route builds from the body's text, the author record and the token's id. */
  function NewComment(id: string, text: string, author: Author, actor: UserId): Comment
  {
    Comment(id, text, author.name, author.avatar, actor)
  }

  /** The in-memory step of POST /posts/comment/:post_id on the post's comments:
      the text check, then the author lookup (a missing user makes `user.name` throw). */
  function CommentResult(comments: seq<Comment>, author: Option<Author>, actor: UserId,
                         text: string, freshId: string): Result<seq<Comment>>
  {
    var errs := Required([(text, "Text is required")]);
    if errs != [] then Err(Invalid(errs))
    else if author.None? then Err(PostServerError)
    else Ok([NewComment(freshId, text, author.value, actor)] + comments)
  }

  /** POST /posts/comment/:post_id */
  method AddComment(post: Post?, author: Option<Author>, actor: UserId, text: string, freshId: string)
    returns (r: Outcome)
    modifies post
    ensures post == null ==>
      r == Fail(if text == "" then Invalid(["Text is required"]) else PostServerError)
    ensures post != null ==>
      Saved(r, post.comments) == CommentResult(old(post.comments), author, actor, text, freshId)
    ensures post != null && r.Fail? ==> post.comments == old(post.comments)
    ensures post != null ==> post.likes == old(post.likes)
  {
    var errs := Required([(text, "Text is required")]);
    RequiredOne(text, "Text is required");
    if errs != [] {
      return Fail(Invalid(errs));
    }
    if author.None? || post == null {
      return Fail(PostServerError);
    }
    post.comments := [NewComment(freshId, text, author.value, actor)] + post.comments;
    r := Pass;
  }

  /** A comment with text from a known user goes first; the earlier comments follow in order.
      Empty text is refused before anything is read. */
  lemma CommentPrepends(comments: seq<Comment>, author: Author, actor: UserId, text: string, freshId: string)
    ensures text == "" ==>
      CommentResult(comments, Some(author), actor, text, freshId) == Err(Invalid(["Text is required"]))
    ensures text != "" ==>
      CommentResult(comments, Some(author), actor, text, freshId).Ok?
    ensures text != "" ==>
      var c := CommentResult(comments, Some(author), actor, text, freshId).value;
      |c| == |comments| + 1 && c[1..] == comments &&
      c[0] == Comment(freshId, text, author.name, author.avatar, actor)
  {
    RequiredOne(text, "Text is required");
  }

  /** Removing one comment keeps distinct comment ids distinct. */
  lemma CommentIdsSplice(comments: seq<Comment>, j: int)
    requires Distinct(CommentIds(comments)) && 0 <= j < |comments|
    ensures Distinct(CommentIds(SpliceOne(comments, j)))
  {
    var ids := CommentIds(comments);
    SpliceOneAt(comments, j);
    SpliceOneAt(ids, j);
    assert CommentIds(SpliceOne(comments, j)) == SpliceOne(ids, j);
    DistinctSpliceOne(ids, j);
  }

  /** The in-memory step of DELETE /posts/comment/:post_id/:comment_id, as written:
      find the requested comment, check its author, then splice at the index of the
      acting user's FIRST comment, which is looked up by author rather than by id. */
  function DeleteCommentResult(comments: seq<Comment>, commentId: string, actor: UserId)
    : Result<seq<Comment>>
  {
    var k := IndexOf(CommentIds(comments), commentId);
    if k == -1 then Err(ReplyPostNotFound)
    else
      var check := Authorize(actor, comments[k].user, "comment");
      if check.Fail? then Err(check.error)
      else Ok(SpliceOne(comments, IndexOf(CommentAuthors(comments), actor)))
  }

  /** DELETE /posts/comment/:post_id/:comment_id, as written. */
  method DeleteComment(post: Post?, commentId: string, actor: UserId) returns (r: Outcome)
    modifies post
    ensures post == null ==> r == Fail(PostServerError)
    ensures post != null ==>
      Saved(r, post.comments) == DeleteCommentResult(old(post.comments), commentId, actor)
    ensures post != null && r.Fail? ==> post.comments == old(post.comments)
    ensures post != null ==> post.likes == old(post.likes)
  {
    if post == null {
      return Fail(PostServerError);
    }
    var k := FindIndex(CommentIds(post.comments), commentId);
    if k == -1 {
      return Fail(ReplyPostNotFound);
    }
    if actor != post.comments[k].user {
      return Fail(Reply(401, "No authorization to remove this comment"));
    }
    var j := FindIndex(CommentAuthors(post.comments), actor);
    post.comments := SpliceOne(post.comments, j);
    r := Pass;
  }

  /** No comment has the requested id: 404, nothing changes. */
  lemma DeleteCommentMissing(comments: seq<Comment>, commentId: string, actor: UserId)
    requires commentId !in CommentIds(comments)
    ensures DeleteCommentResult(comments, commentId, actor) == Err(ReplyPostNotFound)
  {
  }

  /** The requested comment (the first with that id) is someone else's: 401, nothing changes. */
  lemma DeleteCommentForbidden(comments: seq<Comment>, commentId: string, actor: UserId)
    requires commentId in CommentIds(comments)
    requires comments[IndexOf(CommentIds(comments), commentId)].user != actor
    ensures DeleteCommentResult(comments, commentId, actor) ==
      Err(Reply(401, "No authorization to remove this comment"))
  {
  }

  /** The requested comment is the acting user's: exactly one comment goes, the acting user's
      first one, which sits at or before the requested one (and may not be it). */
  lemma DeleteCommentRemovesFirstOwn(comments: seq<Comment>, commentId: string, actor: UserId)
    requires commentId in CommentIds(comments)
    requires comments[IndexOf(CommentIds(comments), commentId)].user == actor
    ensures DeleteCommentResult(comments, commentId, actor).Ok?
    ensures var k := IndexOf(CommentIds(comments), commentId);
      var j := IndexOf(CommentAuthors(comments), actor);
      0 <= j <= k && comments[j].user == actor &&
      (forall i :: 0 <= i < j ==> comments[i].user != actor) &&
      DeleteCommentResult(comments, commentId, actor).value == comments[..j] + comments[j + 1..]
    ensures |DeleteCommentResult(comments, commentId, actor).value| == |comments| - 1
  {
    var k := IndexOf(CommentIds(comments), commentId);
    var authors := CommentAuthors(comments);
    assert authors[k] == actor;
    var j := IndexOf(authors, actor);
    assert DeleteCommentResult(comments, commentId, actor) == Ok(SpliceOne(comments, j));
    SpliceOneAt(comments, j);
    forall i | 0 <= i < j ensures comments[i].user != actor {
      assert authors[..j][i] == comments[i].user;
    }
  }

  /** The discrepancy: a user with two comments asks to delete the newer-listed second one; the
      first one is removed and the requested one stays. */
  lemma DeleteCommentRemovesOther()
    ensures var a := Comment("c1", "first", "Ann", "a.png", "u1");
      var b := Comment("c2", "second", "Ann", "a.png", "u1");
      DeleteCommentResult([a, b], "c2", "u1") == Ok([b])
  {
    var a := Comment("c1", "first", "Ann", "a.png", "u1");
    var b := Comment("c2", "second", "Ann", "a.png", "u1");
    assert CommentIds([a, b]) == ["c1", "c2"];
    assert CommentAuthors([a, b]) == ["u1", "u1"];
    assert ["c1", "c2"][1..] == ["c2"];
    assert IndexOf(["c1", "c2"], "c2") == 1;
    assert IndexOf(["u1", "u1"], "u1") == 0;
    assert [a, b][..0] + [a, b][1..] == [b];
  }

  /** The evidently intended deletion: after the same id and author checks, splice at the
      requested comment's own index. */
  function DeleteCommentByIdResult(comments: seq<Comment>, commentId: string, actor: UserId)
    : Result<seq<Comment>>
  {
    var k := IndexOf(CommentIds(comments), commentId);
    if k == -1 then Err(ReplyPostNotFound)
    else
      var check := Authorize(actor, comments[k].user, "comment");
      if check.Fail? then Err(check.error)
      else Ok(SpliceOne(comments, k))
  }

  /** DELETE /posts/comment/:post_id/:comment_id with the index looked up by comment id. */
  method DeleteCommentById(post: Post?, commentId: string, actor: UserId) returns (r: Outcome)
    modifies post
    ensures post == null ==> r == Fail(PostServerError)
    ensures post != null ==>
      Saved(r, post.comments) == DeleteCommentByIdResult(old(post.comments), commentId, actor)
    ensures post != null && r.Fail? ==> post.comments == old(post.comments)
    ensures post != null ==> post.likes == old(post.likes)
  {
    if post == null {
      return Fail(PostServerError);
    }
    var k := FindIndex(CommentIds(post.comments), commentId);
    if k == -1 {
      return Fail(ReplyPostNotFound);
    }
    if actor != post.comments[k].user {
      return Fail(Reply(401, "No authorization to remove this comment"));
    }
    post.comments := SpliceOne(post.comments, k);
    r := Pass;
  }

  /** The failing cases of the corrected deletion: the same error as the deletion as written. */
  lemma DeleteCommentByIdRefused(comments: seq<Comment>, commentId: string, actor: UserId)
    requires var k := IndexOf(CommentIds(comments), commentId);
      k == -1 || comments[k].user != actor
    ensures DeleteCommentByIdResult(comments, commentId, actor).Err?
    ensures DeleteCommentByIdResult(comments, commentId, actor) == DeleteCommentResult(comments, commentId, actor)
  {
  }

  /** The accepted case of the corrected deletion: the requested comment goes, nothing else. */
  lemma DeleteCommentByIdAccepted(comments: seq<Comment>, commentId: string, actor: UserId)
    requires var k := IndexOf(CommentIds(comments), commentId);
      k != -1 && comments[k].user == actor
    ensures DeleteCommentResult(comments, commentId, actor).Ok?
    ensures var k := IndexOf(CommentIds(comments), commentId);
      comments[k].id == commentId &&
      DeleteCommentByIdResult(comments, commentId, actor) == Ok(comments[..k] + comments[k + 1..])
  {
    var k := IndexOf(CommentIds(comments), commentId);
    assert CommentIds(comments)[k] == comments[k].id;
    SpliceOneAt(comments, k);
  }

  /** The corrected deletion removes the requested comment itself and nothing else; it fails
      in the same cases, with the same errors, as the deletion as written. */
  lemma DeleteCommentByIdRemovesRequested(comments: seq<Comment>, commentId: string, actor: UserId)
    ensures DeleteCommentByIdResult(comments, commentId, actor).Err? <==>
      DeleteCommentResult(comments, commentId, actor).Err?
    ensures DeleteCommentByIdResult(comments, commentId, actor).Err? ==>
      DeleteCommentByIdResult(comments, commentId, actor) == DeleteCommentResult(comments, commentId, actor)
    ensures DeleteCommentByIdResult(comments, commentId, actor).Ok? ==>
      var k := IndexOf(CommentIds(comments), commentId);
      0 <= k < |comments| && comments[k].id == commentId && comments[k].user == actor &&
      DeleteCommentByIdResult(comments, commentId, actor).value == comments[..k] + comments[k + 1..]
  {
    var k := IndexOf(CommentIds(comments), commentId);
    if k == -1 || comments[k].user != actor {
      DeleteCommentByIdRefused(comments, commentId, actor);
    } else {
      DeleteCommentByIdAccepted(comments, commentId, actor);
    }
  }

  /** With a fresh id, adding a comment and either deletion keep the comment ids distinct. */
  lemma CommentIdsStayDistinct(comments: seq<Comment>, author: Option<Author>, actor: UserId,
                               text: string, freshId: string, commentId: string)
    requires Distinct(CommentIds(comments))
    requires freshId !in CommentIds(comments)
    ensures CommentResult(comments, author, actor, text, freshId).Ok? ==>
      Distinct(CommentIds(CommentResult(comments, author, actor, text, freshId).value))
    ensures DeleteCommentResult(comments, commentId, actor).Ok? ==>
      Distinct(CommentIds(DeleteCommentResult(comments, commentId, actor).value))
    ensures DeleteCommentByIdResult(comments, commentId, actor).Ok? ==>
      Distinct(CommentIds(DeleteCommentByIdResult(comments, commentId, actor).value))
  {
    var ids := CommentIds(comments);
    if CommentResult(comments, author, actor, text, freshId).Ok? {
      var c := CommentResult(comments, author, actor, text, freshId).value;
      assert c == [NewComment(freshId, text, author.value, actor)] + comments;
      assert CommentIds(c) == [freshId] + ids;
      DistinctPrepend(freshId, ids);
    }
    var k := IndexOf(ids, commentId);
    if k != -1 && comments[k].user == actor {
      var authors := CommentAuthors(comments);
      assert authors[k] == actor;
      var j := IndexOf(authors, actor);
      assert DeleteCommentResult(comments, commentId, actor) == Ok(SpliceOne(comments, j));
      CommentIdsSplice(comments, j);
      assert DeleteCommentByIdResult(comments, commentId, actor) == Ok(SpliceOne(comments, k));
      CommentIdsSplice(comments, k);
    }
  }
}
