/** The post service: posts are created and updated only against a stored category,
    listed page by page in a requested order, and listed by category. A lookup by id
    that finds nothing fails with ResourceNotFound("Post" or "Category", "id", id); a
    failed call changes nothing. */
module PostServices {
  import opened Results
  import opened Entities
  import opened Sequences
  import opened Repositories
  import opened Sorting
  import opened Paging

  /** The page envelope `getAllPosts` returns. */
  datatype PostResponse = PostResponse(content: seq<PostDto>, pageNo: int, pageSize: int,
                                       totalElements: int, totalPages: int, last: bool)

  function PostEntryToDto(e: (int, Post)): PostDto
  {
    PostToDto(e.0, e.1)
  }

  function PostDtoId(d: PostDto): int
  {
    d.id
  }

  /** Keeps the posts of category `categoryId`. */
  function InCategory(categoryId: int): ((int, Post)) -> bool
  {
    (e: (int, Post)) => e.1.categoryId == categoryId
  }

  /** The stored posts sorted as `getAllPosts` orders them. */
  function SortedPosts(entries: seq<(int, Post)>, f: SortField, sortDir: string): seq<(int, Post)>
  {
    SortPosts(entries, f, DirectionNamed(sortDir))
  }

  /** The ids of the category listing's DTOs are the ids of its entries. */
  lemma CategoryListingIds(entries: seq<(int, Post)>)
    ensures Map(Map(entries, PostEntryToDto), PostDtoId) == Map(entries, Key)
  {
    var r := Map(entries, PostEntryToDto);
    forall i | 0 <= i < |r| ensures Map(r, PostDtoId)[i] == Map(entries, Key)[i] {
      assert r[i] == PostEntryToDto(entries[i]);
    }
  }

  /** The DTOs of the posts of category `categoryId`: exactly the stored ones, each once,
      in the order of `keys`. */
  lemma PostsInCategory(rows: map<int, Post>, keys: seq<int>, categoryId: int)
    requires AllStored(keys, rows) && Distinct(keys)
    requires forall k | k in rows :: k in keys
    ensures var r := Map(Filter(Entries(rows, keys), InCategory(categoryId)), PostEntryToDto);
      && (forall i | 0 <= i < |r| ::
            r[i].id in rows && r[i] == PostToDto(r[i].id, rows[r[i].id]) && r[i].categoryId == categoryId)
      && (forall id | id in rows && rows[id].categoryId == categoryId ::
            exists i :: 0 <= i < |r| && r[i].id == id)
      && Subsequence(Map(r, PostDtoId), keys)
      && Distinct(Map(r, PostDtoId))
  {
    var matching := Filter(Entries(rows, keys), InCategory(categoryId));
    FilteredEntries(rows, keys, InCategory(categoryId));
    var r := Map(matching, PostEntryToDto);
    forall i | 0 <= i < |r|
      ensures r[i].id in rows && r[i] == PostToDto(r[i].id, rows[r[i].id])
      ensures r[i].categoryId == categoryId
    {
      assert r[i] == PostToDto(matching[i].0, matching[i].1);
      assert InCategory(categoryId)(matching[i]);
    }
    forall id | id in rows && rows[id].categoryId == categoryId
      ensures exists i :: 0 <= i < |r| && r[i].id == id
    {
      assert InCategory(categoryId)((id, rows[id]));
      var i :| 0 <= i < |matching| && matching[i].0 == id;
      assert r[i].id == id;
    }
    CategoryListingIds(matching);
  }

  class PostService {
    const posts: Repository<Post>
    const categories: Repository<Category>

    constructor (posts: Repository<Post>, categories: Repository<Category>)
      ensures this.posts == posts && this.categories == categories
    {
      this.posts := posts;
      this.categories := categories;
    }

    /** `getPostById`: the stored post as a DTO, or NotFound. */
    function GetPostById(id: int): (r: Result<PostDto>)
      reads posts
      ensures r.Success? <==> id in posts.rows
      ensures r.Success? ==> r.value == PostToDto(id, posts.rows[id])
      ensures r.Failure? ==> r.error == NotFound("Post", id)
    {
      match posts.FindById(id)
      case None => Failure(NotFound("Post", id))
      case Some(p) => Success(PostToDto(id, p))
    }

    /** `getAllPosts`: page `pageNo` of the stored posts sorted by `sortBy` (descending
        when `sortDir` is "desc" in any case, ascending otherwise), with the requested
        page number and size echoed, the number of stored posts, the number of pages
        (the ceiling of posts over page size) and whether no post lies beyond the page.
        A negative page number, a page size below one or an unknown property fails. */
    function GetAllPosts(pageNo: int, pageSize: int, sortBy: string, sortDir: string)
      : (r: Result<PostResponse>)
      reads posts
      requires posts.Valid()
      ensures r.Failure? <==> pageNo < 0 || pageSize < 1 || SortFieldNamed(sortBy).None?
      ensures pageNo < 0 || pageSize < 1 ==> r.Failure? && r.error.IllegalArgument?
      ensures pageNo >= 0 && pageSize >= 1 && SortFieldNamed(sortBy).None? ==>
        r == Failure(NoSuchProperty(sortBy))
      ensures r.Success? ==>
        && r.value.pageNo == pageNo && r.value.pageSize == pageSize
        && r.value.totalElements == |posts.rows|
        && r.value.totalPages * pageSize >= |posts.rows|
        && (r.value.totalPages == 0 || (r.value.totalPages - 1) * pageSize < |posts.rows|)
        && (r.value.last <==> (pageNo + 1) * pageSize >= |posts.rows|)
        && |r.value.content| <= pageSize
        && (pageNo * pageSize >= |posts.rows| ==> r.value.content == [])
      ensures r.Success? ==>
        var sorted := SortedPosts(posts.FindAll(), SortFieldNamed(sortBy).value, sortDir);
        && Sorted(sorted, SortFieldNamed(sortBy).value, DirectionNamed(sortDir))
        && multiset(sorted) == multiset(posts.FindAll())
        && r.value.content == Map(PageOf(sorted, pageNo, pageSize), PostEntryToDto)
    {
      if pageNo < 0 then Failure(IllegalArgument("Page index must not be less than zero"))
      else if pageSize < 1 then Failure(IllegalArgument("Page size must not be less than one"))
      else match SortFieldNamed(sortBy)
        case None => Failure(NoSuchProperty(sortBy))
        case Some(f) =>
          var all := posts.FindAll();
          var total := TotalPages(|all|, pageSize);
          LastIffNothingFollows(|all|, pageSize, pageNo);
          var page := PageOf(SortedPosts(all, f, sortDir), pageNo, pageSize);
          assert pageNo * pageSize >= |all| ==> page == [];
          Success(PostResponse(Map(page, PostEntryToDto), pageNo, pageSize,
                               |all|, total, IsLast(pageNo, total)))
    }

    /** `getPostsByCategory`: NotFound if the category is absent; otherwise one DTO per
        stored post of that category, in store order. */
    function GetPostsByCategory(categoryId: int): (r: Result<seq<PostDto>>)
      reads posts, categories
      requires posts.Valid()
      ensures r.Failure? <==> categoryId !in categories.rows
      ensures r.Failure? ==> r.error == NotFound("Category", categoryId)
      ensures r.Success? ==>
        && (forall i | 0 <= i < |r.value| ::
              && r.value[i].id in posts.rows
              && r.value[i] == PostToDto(r.value[i].id, posts.rows[r.value[i].id])
              && r.value[i].categoryId == categoryId)
        && (forall id | id in posts.rows && posts.rows[id].categoryId == categoryId ::
              exists i :: 0 <= i < |r.value| && r.value[i].id == id)
        && Subsequence(Map(r.value, PostDtoId), posts.order)
        && Distinct(Map(r.value, PostDtoId))
    {
      match categories.FindById(categoryId)
      case None => Failure(NotFound("Category", categoryId))
      case Some(_) =>
        PostsInCategory(posts.rows, posts.order, categoryId);
        var dtos := Map(Filter(posts.FindAll(), InCategory(categoryId)), PostEntryToDto);
        Success(dtos)
    }

    /** `createPost`: NotFound, with nothing stored, if the DTO's category is absent;
        otherwise stores one new post with the DTO's texts and category, created at `now`,
        under a fresh id, and returns it. */
    method CreatePost(dto: PostDto, now: int) returns (r: Result<PostDto>)
      requires posts.Valid()
      modifies posts
      ensures posts.Valid()
      ensures dto.categoryId !in categories.rows ==>
        r == Failure(NotFound("Category", dto.categoryId)) && unchanged(posts)
      ensures dto.categoryId in categories.rows ==>
        && r.Success?
        && r.value.id !in old(posts.rows)
        && r.value == dto.(id := r.value.id, createdAt := now)
        && posts.rows == old(posts.rows)[r.value.id := PostFromDto(dto, now)]
        && posts.order == old(posts.order) + [r.value.id]
        && GetPostById(r.value.id) == r
    {
      var category := categories.FindById(dto.categoryId);
      if category.None? {
        return Failure(NotFound("Category", dto.categoryId));
      }
      var p := PostFromDto(dto, now);
      var id := posts.Insert(p);
      r := Success(PostToDto(id, p));
    }

    /** `updatePost`: NotFound if the post is absent, then NotFound if the DTO's category
        is absent, changing nothing in either case; otherwise overwrites the post's title,
        description, content and category, keeping its id, place and creation time. */
    method UpdatePost(dto: PostDto, id: int) returns (r: Result<PostDto>)
      requires posts.Valid()
      modifies posts
      ensures posts.Valid()
      ensures id !in old(posts.rows) ==>
        r == Failure(NotFound("Post", id)) && unchanged(posts)
      ensures id in old(posts.rows) && dto.categoryId !in categories.rows ==>
        r == Failure(NotFound("Category", dto.categoryId)) && unchanged(posts)
      ensures id in old(posts.rows) && dto.categoryId in categories.rows ==>
        var updated := Post(dto.title, dto.description, dto.content,
                            old(posts.rows)[id].createdAt, dto.categoryId);
        && posts.rows == old(posts.rows)[id := updated]
        && posts.order == old(posts.order)
        && r == Success(PostToDto(id, updated))
        && GetPostById(id) == r
    {
      var found := posts.FindById(id);
      if found.None? {
        return Failure(NotFound("Post", id));
      }
      var category := categories.FindById(dto.categoryId);
      if category.None? {
        return Failure(NotFound("Category", dto.categoryId));
      }
      var p := found.value.(title := dto.title, description := dto.description,
                            content := dto.content, categoryId := dto.categoryId);
      posts.Update(id, p);
      r := Success(PostToDto(id, p));
    }

    /** `deletePostById`: removes the post stored under `id`, after which looking it up
        fails; NotFound, with nothing changed, if absent. */
    method DeletePostById(id: int) returns (r: Result<()>)
      requires posts.Valid()
      modifies posts
      ensures posts.Valid()
      ensures id !in old(posts.rows) ==>
        r == Failure(NotFound("Post", id)) && unchanged(posts)
      ensures id in old(posts.rows) ==>
        && r == Success(())
        && posts.rows == old(posts.rows) - {id}
        && posts.FindAll() == Filter(old(posts.FindAll()), OtherEntry(id))
        && GetPostById(id) == Failure(NotFound("Post", id))
    {
      var found := posts.FindById(id);
      if found.None? {
        return Failure(NotFound("Post", id));
      }
      posts.Delete(id);
      r := Success(());
    }
  }
}
