/** Client scenarios following the service tests: each builds fresh repositories, calls
    the services and asserts what the tests assert, using only the services' contracts. */
module Scenarios {
  import opened Results
  import opened Entities
  import opened Repositories
  import opened CategoryServices
  import opened PostServices
  import opened CommentServices

  method CategoryLifecycle()
  {
    var categories := new Repository<Category>();
    var service := new CategoryService(categories);
    var added := service.AddCategory(CategoryDto(0, "Test Category", "Test Description"));
    assert added.name == "Test Category" && added.description == "Test Description";
    assert service.GetCategory(added.id).Success?;
    assert |service.GetAllCategories()| == 1;

    var updated := service.UpdateCategory(CategoryDto(0, "Updated Category", "Updated Description"), added.id);
    assert updated.Success? && updated.value.name == "Updated Category";

    var deleted := service.DeleteCategory(added.id);
    assert deleted.Success?;
    assert service.GetCategory(added.id) == Failure(NotFound("Category", added.id));
    var again := service.DeleteCategory(added.id);
    assert again == Failure(NotFound("Category", added.id));
    var missing := service.UpdateCategory(CategoryDto(0, "x", "y"), added.id);
    assert missing.Failure? && missing.error.ResourceNotFound?;
  }

  method PostListing()
  {
    var categories := new Repository<Category>();
    var posts := new Repository<Post>();
    var catId := categories.Insert(Category("c", "d"));
    var service := new PostService(posts, categories);

    var orphan := service.CreatePost(PostDto(0, "t", "d", "c", 0, catId + 1), 5);
    assert orphan == Failure(NotFound("Category", catId + 1)) && posts.rows == map[];

    var first := service.CreatePost(PostDto(0, "Test Title", "Test Description", "Test Content", 0, catId), 10);
    var second := service.CreatePost(PostDto(0, "Other Title", "Other Description", "Other Content", 0, catId), 20);
    assert first.Success? && second.Success?;
    assert |posts.rows| == 2;

    var page := service.GetAllPosts(0, 10, "title", "asc");
    assert page.Success?;
    assert page.value.pageNo == 0 && page.value.pageSize == 10 && page.value.totalElements == 2;
    assert page.value.totalPages == 1 && page.value.last;

    var byCategory := service.GetPostsByCategory(catId);
    assert byCategory.Success?;

    var bad := service.GetAllPosts(0, 0, "title", "asc");
    assert bad.Failure? && bad.error.IllegalArgument?;

    var updated := service.UpdatePost(PostDto(0, "Updated Title", "Updated Description", "Updated Content", 0, catId), first.value.id);
    assert updated.Success? && updated.value.createdAt == 10 && updated.value.title == "Updated Title";

    var deleted := service.DeletePostById(first.value.id);
    assert deleted.Success?;
    assert service.GetPostById(first.value.id).Failure?;
  }

  method CommentLifecycle()
  {
    var posts := new Repository<Post>();
    var comments := new Repository<Comment>();
    var postId := posts.Insert(Post("t", "d", "c", 0, 1));
    var service := new CommentService(comments, posts);

    var nowhere := service.CreateComment(postId + 1, CommentDto(0, "n", "e", "b"));
    assert nowhere == Failure(NotFound("Post", postId + 1)) && comments.rows == map[];
    assert |service.GetCommentsByPostId(postId + 1)| == 0;

    var created := service.CreateComment(postId, CommentDto(0, "Test Comment", "test@example.com", "Body"));
    assert created.Success?;
    var commentId := created.value.id;
    assert service.GetCommentById(postId, commentId) == created;

    var delete := service.DeleteComment(postId, commentId);
    assert delete == Success(());
    assert service.GetCommentById(postId, commentId) == Failure(NotFound("Comment", commentId));
  }

  method CommentOfAnotherPost()
  {
    var posts := new Repository<Post>();
    var comments := new Repository<Comment>();
    var post1 := posts.Insert(Post("t1", "d1", "c1", 0, 1));
    var post2 := posts.Insert(Post("t2", "d2", "c2", 0, 1));
    var service := new CommentService(comments, posts);
    var created := service.CreateComment(post1, CommentDto(0, "Test Comment", "test@example.com", "Body"));
    var commentId := created.value.id;

    assert service.GetCommentById(post2, commentId) == Failure(BlogApi(BadRequest, CommentNotOfPost));
    var update := service.UpdateComment(post2, commentId, CommentDto(0, "x", "y", "z"));
    assert update == Failure(BlogApi(BadRequest, CommentNotOfPost));
    assert comments.rows[commentId].name == "Test Comment";
    var delete := service.DeleteComment(post2, commentId);
    assert delete.Failure? && delete.error.BlogApi? && commentId in comments.rows;
  }
}
