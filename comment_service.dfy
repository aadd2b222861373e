/** The comment service: comments live under a post. Every access by (postId, commentId)
    makes three checks in a fixed order: the post exists (else NotFound for the post),
    the comment exists (else NotFound for the comment), and the comment belongs to that
    post (else a BlogAPIException with status 400). A failed call changes nothing. */
module CommentServices {
  import opened Results
  import opened Entities
  import opened Sequences
  import opened Repositories

  const CommentNotOfPost: string := "Comment does not belong to post"

  /** The outcome of the three ordered checks: the comment, or the first failed check's
      error. */
  function Resolve(posts: map<int, Post>, comments: map<int, Comment>, postId: int, commentId: int)
    : (r: Result<Comment>)
    ensures r.Success? <==>
      postId in posts && commentId in comments && comments[commentId].postId == postId
    ensures r.Success? ==> r.value == comments[commentId]
    ensures postId !in posts ==> r == Failure(NotFound("Post", postId))
    ensures postId in posts && commentId !in comments ==> r == Failure(NotFound("Comment", commentId))
    ensures r.Failure? && r.error.BlogApi? <==>
      postId in posts && commentId in comments && comments[commentId].postId != postId
    ensures r.Failure? && r.error.BlogApi? ==> r.error == BlogApi(BadRequest, CommentNotOfPost)
  {
    if postId !in posts then Failure(NotFound("Post", postId))
    else if commentId !in comments then Failure(NotFound("Comment", commentId))
    else if comments[commentId].postId != postId then Failure(BlogApi(BadRequest, CommentNotOfPost))
    else Success(comments[commentId])
  }

  /** When the post is missing the comment table is never consulted: the outcome is the
      same whatever the comments are. */
  lemma MissingPostIgnoresComments(posts: map<int, Post>, c1: map<int, Comment>,
                                   c2: map<int, Comment>, postId: int, commentId: int)
    requires postId !in posts
    ensures Resolve(posts, c1, postId, commentId) == Resolve(posts, c2, postId, commentId)
  {
  }

  /** Existence failures win over a parentage mismatch: whenever the post or the comment
      is missing, the caller sees NotFound, never the BlogAPIException. */
  lemma NotFoundBeforeMismatch(posts: map<int, Post>, comments: map<int, Comment>,
                               postId: int, commentId: int)
    requires postId !in posts || commentId !in comments
    ensures Resolve(posts, comments, postId, commentId).Failure?
    ensures Resolve(posts, comments, postId, commentId).error.ResourceNotFound?
  {
  }

  /** A resolved comment as the DTO the service returns. */
  function ResolvedDto(res: Result<Comment>, commentId: int): Result<CommentDto>
  {
    match res
    case Success(c) => Success(CommentToDto(commentId, c))
    case Failure(e) => Failure(e)
  }

  function CommentEntryToDto(e: (int, Comment)): CommentDto
  {
    CommentToDto(e.0, e.1)
  }

  function CommentDtoId(d: CommentDto): int
  {
    d.id
  }

  /** Keeps the comments of post `postId`. */
  function OfPost(postId: int): ((int, Comment)) -> bool
  {
    (e: (int, Comment)) => e.1.postId == postId
  }

  /** The DTOs of the comments of post `postId`: exactly the stored ones, each once, in
      the order of `keys`. */
  lemma CommentsOfPost(rows: map<int, Comment>, keys: seq<int>, postId: int)
    requires AllStored(keys, rows) && Distinct(keys)
    requires forall k | k in rows :: k in keys
    ensures var r := Map(Filter(Entries(rows, keys), OfPost(postId)), CommentEntryToDto);
      && (forall i | 0 <= i < |r| ::
            r[i].id in rows && r[i] == CommentToDto(r[i].id, rows[r[i].id])
            && rows[r[i].id].postId == postId)
      && (forall id | id in rows && rows[id].postId == postId ::
            exists i :: 0 <= i < |r| && r[i].id == id)
      && Subsequence(Map(r, CommentDtoId), keys)
      && Distinct(Map(r, CommentDtoId))
  {
    var matching := Filter(Entries(rows, keys), OfPost(postId));
    FilteredEntries(rows, keys, OfPost(postId));
    var r := Map(matching, CommentEntryToDto);
    forall i | 0 <= i < |r|
      ensures r[i].id in rows && r[i] == CommentToDto(r[i].id, rows[r[i].id])
      ensures rows[r[i].id].postId == postId
    {
      assert r[i] == CommentToDto(matching[i].0, matching[i].1);
      assert OfPost(postId)(matching[i]);
    }
    forall id | id in rows && rows[id].postId == postId
      ensures exists i :: 0 <= i < |r| && r[i].id == id
    {
      assert OfPost(postId)((id, rows[id]));
      var i :| 0 <= i < |matching| && matching[i].0 == id;
      assert r[i].id == id;
    }
    var ids := Map(matching, Key);
    assert Map(r, CommentDtoId) == ids by {
      forall i | 0 <= i < |r| ensures Map(r, CommentDtoId)[i] == ids[i] {
        assert r[i] == CommentEntryToDto(matching[i]);
      }
    }
    assert Subsequence(ids, keys) && Distinct(ids);
  }

  class CommentService {
    const comments: Repository<Comment>
    const posts: Repository<Post>

    constructor (comments: Repository<Comment>, posts: Repository<Post>)
      ensures this.comments == comments && this.posts == posts
    {
      this.comments := comments;
      this.posts := posts;
    }

    /** `getCommentById`: the outcome of the three ordered checks, as a DTO. */
    function GetCommentById(postId: int, commentId: int): (r: Result<CommentDto>)
      reads posts, comments
      ensures r == ResolvedDto(Resolve(posts.rows, comments.rows, postId, commentId), commentId)
    {
      match posts.FindById(postId)
      case None => Failure(NotFound("Post", postId))
      case Some(_) =>
        match comments.FindById(commentId)
        case None => Failure(NotFound("Comment", commentId))
        case Some(c) =>
          if c.postId != postId then Failure(BlogApi(BadRequest, CommentNotOfPost))
          else Success(CommentToDto(commentId, c))
    }

    /** `getCommentsByPostId`: one DTO per stored comment of post `postId`, in store
        order. The post itself is not looked up: with no comments, the list is empty. */
    function GetCommentsByPostId(postId: int): (r: seq<CommentDto>)
      reads comments
      requires comments.Valid()
      ensures forall i | 0 <= i < |r| ::
        && r[i].id in comments.rows
        && r[i] == CommentToDto(r[i].id, comments.rows[r[i].id])
        && comments.rows[r[i].id].postId == postId
      ensures forall id | id in comments.rows && comments.rows[id].postId == postId ::
        exists i :: 0 <= i < |r| && r[i].id == id
      ensures Subsequence(Map(r, CommentDtoId), comments.order)
      ensures Distinct(Map(r, CommentDtoId))
      ensures r == [] <==> forall id | id in comments.rows :: comments.rows[id].postId != postId
    {
      CommentsOfPost(comments.rows, comments.order, postId);
      Map(Filter(comments.FindAll(), OfPost(postId)), CommentEntryToDto)
    }

    /** `createComment`: NotFound, with nothing stored, if the post is absent; otherwise
        stores one new comment with the DTO's fields, attached to the post, under a fresh
        id, and returns it. */
    method CreateComment(postId: int, dto: CommentDto) returns (r: Result<CommentDto>)
      requires comments.Valid()
      modifies comments
      ensures comments.Valid()
      ensures postId !in posts.rows ==>
        r == Failure(NotFound("Post", postId)) && unchanged(comments)
      ensures postId in posts.rows ==>
        && r.Success?
        && r.value.id !in old(comments.rows)
        && r.value == dto.(id := r.value.id)
        && comments.rows == old(comments.rows)[r.value.id := CommentFromDto(dto, postId)]
        && comments.order == old(comments.order) + [r.value.id]
        && GetCommentById(postId, r.value.id) == r
    {
      var post := posts.FindById(postId);
      if post.None? {
        return Failure(NotFound("Post", postId));
      }
      var c := CommentFromDto(dto, postId);
      var id := comments.Insert(c);
      r := Success(CommentToDto(id, c));
    }

    /** `updateComment`: after the three ordered checks pass, overwrites the comment's
        name, email and body (its post stays) and returns it; otherwise fails as the
        checks do and saves nothing. */
    method UpdateComment(postId: int, commentId: int, dto: CommentDto) returns (r: Result<CommentDto>)
      requires comments.Valid()
      modifies comments
      ensures comments.Valid()
      ensures var res := Resolve(posts.rows, old(comments.rows), postId, commentId);
        res.Failure? ==> r == Failure(res.error) && unchanged(comments)
      ensures var res := Resolve(posts.rows, old(comments.rows), postId, commentId);
        res.Success? ==>
          && comments.rows == old(comments.rows)[commentId := CommentFromDto(dto, postId)]
          && comments.order == old(comments.order)
          && r == Success(dto.(id := commentId))
          && GetCommentById(postId, commentId) == r
    {
      var post := posts.FindById(postId);
      if post.None? {
        return Failure(NotFound("Post", postId));
      }
      var found := comments.FindById(commentId);
      if found.None? {
        return Failure(NotFound("Comment", commentId));
      }
      if found.value.postId != postId {
        return Failure(BlogApi(BadRequest, CommentNotOfPost));
      }
      var c := found.value.(name := dto.name, email := dto.email, body := dto.body);
      comments.Update(commentId, c);
      r := Success(CommentToDto(commentId, c));
    }

    /** `deleteComment`: after the three ordered checks pass, removes exactly that comment,
        leaving the others and their order alone; otherwise fails as the checks do and
        deletes nothing. */
    method DeleteComment(postId: int, commentId: int) returns (r: Result<()>)
      requires comments.Valid()
      modifies comments
      ensures comments.Valid()
      ensures var res := Resolve(posts.rows, old(comments.rows), postId, commentId);
        res.Failure? ==> r == Failure(res.error) && unchanged(comments)
      ensures var res := Resolve(posts.rows, old(comments.rows), postId, commentId);
        res.Success? ==>
          && r == Success(())
          && comments.rows == old(comments.rows) - {commentId}
          && comments.FindAll() == Filter(old(comments.FindAll()), OtherEntry(commentId))
          && GetCommentById(postId, commentId) == Failure(NotFound("Comment", commentId))
    {
      var post := posts.FindById(postId);
      if post.None? {
        return Failure(NotFound("Post", postId));
      }
      var found := comments.FindById(commentId);
      if found.None? {
        return Failure(NotFound("Comment", commentId));
      }
      if found.value.postId != postId {
        return Failure(BlogApi(BadRequest, CommentNotOfPost));
      }
      comments.Delete(commentId);
      r := Success(());
    }
  }
}
