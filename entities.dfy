/** The three persisted entities and their transfer representations (DTOs).

    An entity is stored under its id in a repository, so the entity value itself does
    not repeat the id; a DTO carries it. A post refers to its category, and a comment to
    its post, by id (a foreign key), never by an embedded object. The field copy that
    ModelMapper performs between an entity and its DTO is written out as the
    `...ToDto` / `...FromDto` pairs below. */
module Entities {

  datatype Category = Category(name: string, description: string)

  datatype CategoryDto = CategoryDto(id: int, name: string, description: string)

  /** `createdAt` is the creation instant, set once by createPost and never changed. */
  datatype Post = Post(title: string, description: string, content: string,
                       createdAt: int, categoryId: int)

  datatype PostDto = PostDto(id: int, title: string, description: string, content: string,
                             createdAt: int, categoryId: int)

  /** `postId` is the owning post, set when the comment is created and never changed. */
  datatype Comment = Comment(name: string, email: string, body: string, postId: int)

  datatype CommentDto = CommentDto(id: int, name: string, email: string, body: string)

  function CategoryToDto(id: int, c: Category): CategoryDto
  {
    CategoryDto(id, c.name, c.description)
  }

  /** The entity built from a DTO; mapping it back under the DTO's id gives the DTO. */
  function CategoryFromDto(d: CategoryDto): (c: Category)
    ensures CategoryToDto(d.id, c) == d
  {
    Category(d.name, d.description)
  }

  function PostToDto(id: int, p: Post): PostDto
  {
    PostDto(id, p.title, p.description, p.content, p.createdAt, p.categoryId)
  }

  /** The post createPost builds: the DTO's texts and category id, stamped `now`. */
  function PostFromDto(d: PostDto, now: int): (p: Post)
    ensures PostToDto(d.id, p) == d.(createdAt := now)
  {
    Post(d.title, d.description, d.content, now, d.categoryId)
  }

  function CommentToDto(id: int, c: Comment): CommentDto
  {
    CommentDto(id, c.name, c.email, c.body)
  }

  /** The comment createComment builds: the DTO's texts, attached to post `postId`. */
  function CommentFromDto(d: CommentDto, postId: int): (c: Comment)
    ensures CommentToDto(d.id, c) == d && c.postId == postId
  {
    Comment(d.name, d.email, d.body, postId)
  }

  /** Mapping an entity to its DTO and back loses nothing but what the DTO does not
      carry (a comment's post). */
  lemma MappingRoundTrips(id: int, c: Category, p: Post, m: Comment)
    ensures CategoryFromDto(CategoryToDto(id, c)) == c
    ensures PostFromDto(PostToDto(id, p), p.createdAt) == p
    ensures CommentFromDto(CommentToDto(id, m), m.postId) == m
  {
  }
}
