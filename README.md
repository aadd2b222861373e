# Blog service layer

A model of the service layer of a Spring Boot blogging backend. It covers three services:

- **Category service**: adds, reads, lists, updates and deletes categories.
- **Post service**: creates, reads, updates and deletes posts, each attached to a stored category. It also lists posts page by page in a requested order, and lists the posts of one category.
- **Comment service**: handles comments nested under a post. Every access by a (postId, commentId) pair makes three checks in a fixed order:
  1. The post must exist, otherwise `ResourceNotFoundException`.
  2. The comment must exist, otherwise `ResourceNotFoundException`.
  3. The comment must belong to that post, otherwise `BlogAPIException` with status 400.

How the pieces are modelled:

- **Repositories**: each Spring Data repository is an in-memory `Repository<T>` class. It holds:
  - `rows`: a map from id to entity;
  - `order`: the ids in store order;
  - `nextId`: the next id to hand out.
- **Services**: each service is a class holding references to the repositories it uses.
- **Reads** (`getCategory`, `getAllPosts`, `getCommentsByPostId`, ...) are functions of the repository state.
- **Writes** (`save`, `delete`) are methods that state the new state of the table they modify.
- **Errors**: an exception is a `Failure` carrying an `Error`:
  - `ResourceNotFound(resource, "id", id)`;
  - `BlogApi(400, message)`;
  - `IllegalArgument`, for a page request that is out of range;
  - `NoSuchProperty`, for an unknown sort property.
- **ModelMapper**: modelled as field-copy functions between entities and DTOs.
- **Creation time**: the wall-clock creation time of a post is a parameter (`now`).

Modules:

- `Results`: Option, Result and the error taxonomy.
- `Entities`: entities, DTOs and the mappings between them.
- `Sequences`: filter, map and subsequence, with their lemmas.
- `Repositories`: the repository class and the listing lemmas.
- `Sorting`: sort field, direction and a stable insertion sort.
- `Paging`: page count, page slices and the `last` flag.
- `CategoryServices`, `PostServices`, `CommentServices`: the three services.
- `Scenarios`: client methods that replay the service tests against the contracts.

## Model

| member | source | states |
|---|---|---|
| Entities.CategoryFromDto | src/test/java/com/springboot/blog/service/CategoryServiceImplTest.java:44-53 | mapping the built category back under the DTO's id gives the DTO |
| Entities.PostFromDto | src/test/java/com/springboot/blog/service/PostServiceImplTests.java:44-76 | the built post carries the DTO's texts and category; mapping it back gives the DTO with createdAt set to the creation time |
| Entities.CommentFromDto | src/test/java/com/springboot/blog/service/CommentServiceImplTest.java:44-68 | the built comment carries the DTO's fields and is attached to the given post; mapping it back gives the DTO |
| Entities.MappingRoundTrips | src/test/java/com/springboot/blog/service/CommentServiceImplTest.java:44-68 | entity to DTO and back returns the same entity, for all three entities |
| Sequences.Filter | src/test/java/com/springboot/blog/service/CommentServiceImplTest.java:84-125 | the result holds exactly the elements that satisfy the predicate and is no longer than the input |
| Sequences.FilterCount | src/test/java/com/springboot/blog/service/CommentServiceImplTest.java:84-125 | filtering keeps each kept value's multiplicity and drops every rejected value |
| Sequences.FilterConcat | src/test/java/com/springboot/blog/service/CommentServiceImplTest.java:84-125 | filtering distributes over concatenation |
| Sequences.FilterDistinct | src/test/java/com/springboot/blog/service/CommentServiceImplTest.java:84-125 | filtering a sequence without repeats yields one without repeats |
| Sequences.FilterSubsequence | src/test/java/com/springboot/blog/service/CommentServiceImplTest.java:84-125 | a filtered sequence is an order-preserving subsequence of the original |
| Sequences.MapSubsequence | src/test/java/com/springboot/blog/service/PostServiceImplTests.java:247-270 | mapping preserves the subsequence relation |
| Sequences.SubsequenceMembers | src/test/java/com/springboot/blog/service/CommentServiceImplTest.java:84-125 | every element of a subsequence is an element of the whole |
| Sequences.SubsequenceDistinct | src/test/java/com/springboot/blog/service/PostServiceImplTests.java:247-270 | a subsequence of a sequence without repeats has no repeats |
| Sequences.DistinctCardinality | src/test/java/com/springboot/blog/service/CategoryServiceImplTest.java:86-102 | a sequence without repeats has as many elements as its set |
| Repositories.Entries | src/test/java/com/springboot/blog/service/CategoryServiceImplTest.java:86-102 | the listing of keys has one (id, entity) pair per key, in key order |
| Repositories.FilteredEntries | src/test/java/com/springboot/blog/service/PostServiceImplTests.java:247-270 | a filtered listing holds exactly the stored entries that satisfy the filter, each once, in store order |
| Repositories.ListingKeepsOrder | src/test/java/com/springboot/blog/service/CommentServiceImplTest.java:84-125 | the ids of a filtered listing appear in store order |
| Repositories.EntriesWithout | src/test/java/com/springboot/blog/service/CommentServiceImplTest.java:294-315 | removing an id from the store order removes exactly its entry from the listing |
| Repositories.EntriesAppend | src/test/java/com/springboot/blog/service/CategoryServiceImplTest.java:32-54 | appending an id to the store order appends exactly its entry to the listing |
| Repositories.Repository.FindAll | src/test/java/com/springboot/blog/service/CategoryServiceImplTest.java:86-102 | one (id, entity) pair per stored entity, in store order, with no id twice and none missing |
| Repositories.Repository.Insert | src/test/java/com/springboot/blog/service/CategoryServiceImplTest.java:44-46 | save of a new entity: a fresh id, the table and the listing grow by exactly that entry |
| Repositories.Repository.Update | src/test/java/com/springboot/blog/service/CategoryServiceImplTest.java:117-118 | save of a loaded entity: the entry under its id is overwritten, the store order is kept |
| Repositories.Repository.Delete | src/test/java/com/springboot/blog/service/CategoryServiceImplTest.java:144-156 | delete: exactly that entry leaves the table and the listing; the rest keep their order |
| Sorting.LexLeqTotal | src/test/java/com/springboot/blog/service/PostServiceImplTests.java:78-110 | any two titles are comparable |
| Sorting.LexLeqTransitive | src/test/java/com/springboot/blog/service/PostServiceImplTests.java:78-110 | title order is transitive |
| Sorting.SortFieldNamed | src/test/java/com/springboot/blog/service/PostServiceImplTests.java:83-89 | "title" and "createdAt" name exactly the title and creation-time sort keys |
| Sorting.DirectionCaseInsensitive | src/test/java/com/springboot/blog/service/PostServiceImplTests.java:84-89 | two sortDir values that differ only in letter case ask for the same direction |
| Sorting.DescendingIff | src/test/java/com/springboot/blog/service/PostServiceImplTests.java:112-130 | descending exactly when sortDir is the letters d, e, s, c, each in either case; every other value is ascending |
| Sorting.DirectionExamples | src/test/java/com/springboot/blog/service/PostServiceImplTests.java:84-89 | "asc", "ASC" and "" sort ascending; "desc", "DESC" and "Desc" sort descending |
| Sorting.InOrderTotal | src/test/java/com/springboot/blog/service/PostServiceImplTests.java:112-130 | any two posts are ordered one way or the other for every sort key and direction |
| Sorting.InOrderTransitive | src/test/java/com/springboot/blog/service/PostServiceImplTests.java:112-130 | post order is transitive for every sort key and direction |
| Sorting.SortedCons | src/test/java/com/springboot/blog/service/PostServiceImplTests.java:78-141 | a post that precedes every post of a sorted listing can head it |
| Sorting.Insert | src/test/java/com/springboot/blog/service/PostServiceImplTests.java:78-141 | inserting adds exactly one copy of the post |
| Sorting.InsertSorted | src/test/java/com/springboot/blog/service/PostServiceImplTests.java:78-141 | inserting into a sorted listing keeps it sorted |
| Sorting.SortPosts | src/test/java/com/springboot/blog/service/PostServiceImplTests.java:78-141 | the result is sorted by the key and direction and is a permutation of the input |
| Paging.TotalPages | src/test/java/com/springboot/blog/service/PostServiceImplTests.java:89-107 | the page count is the ceiling of elements over page size |
| Paging.PageOf | src/test/java/com/springboot/blog/service/PostServiceImplTests.java:103 | the page holds at most pageSize elements, the ones at pageNo * pageSize onwards |
| Paging.LastIffNothingFollows | src/test/java/com/springboot/blog/service/PostServiceImplTests.java:107-108 | the last flag holds exactly when no element lies beyond the page |
| Paging.PageSizes | src/test/java/com/springboot/blog/service/PostServiceImplTests.java:103-108 | every page before the last is full, and pages from the page count on are empty |
| Paging.PagePosition | src/test/java/com/springboot/blog/service/PostServiceImplTests.java:103 | position q of page p holds element p * pageSize + q |
| Paging.ElementOnItsPage | src/test/java/com/springboot/blog/service/PostServiceImplTests.java:103 | every element lies on page k / pageSize at position k % pageSize, so the pages cover the listing |
| Paging.OnePage | src/test/java/com/springboot/blog/service/PostServiceImplTests.java:89-108 | two posts at ten per page: one page, marked last, holding both |
| CategoryServices.CategoryService.constructor | src/test/java/com/springboot/blog/service/CategoryServiceImplTest.java:24-29 | the service uses the given repository |
| CategoryServices.CategoryService.GetCategory | src/test/java/com/springboot/blog/service/CategoryServiceImplTest.java:56-84 | success exactly when the id is stored, with that category's DTO; otherwise NotFound for the Category |
| CategoryServices.CategoryService.GetAllCategories | src/test/java/com/springboot/blog/service/CategoryServiceImplTest.java:86-102 | exactly one DTO per stored category, in store order, each equal to its stored category |
| CategoryServices.CategoryService.AddCategory | src/test/java/com/springboot/blog/service/CategoryServiceImplTest.java:32-54 | the returned DTO has the input's name and description under a fresh id, is stored, and reads back unchanged |
| CategoryServices.CategoryService.UpdateCategory | src/test/java/com/springboot/blog/service/CategoryServiceImplTest.java:104-142 | NotFound with nothing changed for a missing id; otherwise name and description are overwritten, and id and place are kept |
| CategoryServices.CategoryService.DeleteCategory | src/test/java/com/springboot/blog/service/CategoryServiceImplTest.java:144-167 | NotFound with nothing changed for a missing id; otherwise exactly that category is removed and no longer found |
| PostServices.CategoryListingIds | src/test/java/com/springboot/blog/service/PostServiceImplTests.java:247-270 | the ids of the listed post DTOs are the ids of the listed entries, in the same order |
| PostServices.PostsInCategory | src/test/java/com/springboot/blog/service/PostServiceImplTests.java:247-270 | the category listing holds exactly the stored posts of that category, each once, in store order |
| PostServices.PostService.constructor | src/test/java/com/springboot/blog/service/PostServiceImplTests.java:35-41 | the service uses the given repositories |
| PostServices.PostService.GetPostById | src/test/java/com/springboot/blog/service/PostServiceImplTests.java:175-192 | success exactly when the id is stored, with that post's DTO; otherwise NotFound for the Post |
| PostServices.PostService.GetAllPosts | src/test/java/com/springboot/blog/service/PostServiceImplTests.java:78-141 | fails exactly for a negative page, a page size below one or an unknown property; otherwise echoes pageNo and pageSize, totalElements is the number of stored posts, totalPages is the ceiling, last holds iff nothing follows, and content is that page of the sorted permutation of the posts |
| PostServices.PostService.GetPostsByCategory | src/test/java/com/springboot/blog/service/PostServiceImplTests.java:247-270 | NotFound for a missing category; otherwise exactly the stored posts of that category, each once, in store order |
| PostServices.PostService.CreatePost | src/test/java/com/springboot/blog/service/PostServiceImplTests.java:44-76 | NotFound with nothing stored for a missing category; otherwise exactly one post is stored under a fresh id, with the DTO's fields and the creation time, and reads back as the returned DTO |
| PostServices.PostService.UpdatePost | src/test/java/com/springboot/blog/service/PostServiceImplTests.java:194-228 | NotFound for a missing post, then for a missing category, changing nothing; otherwise title, description, content and category are overwritten, and id, place and creation time are kept |
| PostServices.PostService.DeletePostById | src/test/java/com/springboot/blog/service/PostServiceImplTests.java:230-245 | NotFound with nothing changed for a missing id; otherwise exactly that post is removed and no longer found |
| CommentServices.Resolve | src/test/java/com/springboot/blog/service/CommentServiceImplTest.java:127-201 | the three checks in order: post NotFound, then comment NotFound, then BlogApi(400) for a comment of another post; success exactly when all three pass |
| CommentServices.MissingPostIgnoresComments | src/test/java/com/springboot/blog/service/CommentServiceImplTest.java:150-162 | with the post missing, the outcome does not depend on the comment table |
| CommentServices.NotFoundBeforeMismatch | src/test/java/com/springboot/blog/service/CommentServiceImplTest.java:164-179 | a missing post or comment always gives NotFound, never BlogAPIException |
| CommentServices.CommentsOfPost | src/test/java/com/springboot/blog/service/CommentServiceImplTest.java:84-125 | the comment listing holds exactly the stored comments of the post, each once, in store order |
| CommentServices.CommentService.constructor | src/test/java/com/springboot/blog/service/CommentServiceImplTest.java:37-41 | the service uses the given repositories |
| CommentServices.CommentService.GetCommentById | src/test/java/com/springboot/blog/service/CommentServiceImplTest.java:127-201 | the outcome of the three ordered checks, as a DTO |
| CommentServices.CommentService.GetCommentsByPostId | src/test/java/com/springboot/blog/service/CommentServiceImplTest.java:84-125 | exactly the stored comments of the post, each once, in store order; empty (not an error) when the post has none |
| CommentServices.CommentService.CreateComment | src/test/java/com/springboot/blog/service/CommentServiceImplTest.java:44-82 | NotFound with nothing saved for a missing post; otherwise exactly one comment is stored, attached to the post, and reads back as the returned DTO |
| CommentServices.CommentService.UpdateComment | src/test/java/com/springboot/blog/service/CommentServiceImplTest.java:203-291 | a failed check returns its error and saves nothing; otherwise name, email and body are overwritten, and the owning post and the order are kept |
| CommentServices.CommentService.DeleteComment | src/test/java/com/springboot/blog/service/CommentServiceImplTest.java:294-372 | a failed check returns its error and deletes nothing; otherwise exactly that comment is removed, the others keep their order, and it is no longer found |

## Left out

- The service implementation classes are not part of this model. Their behaviour is taken from the service tests and the project's description of the services. Where the two leave a choice open, the model follows the description:
  - a sortDir other than "desc" (in any case) sorts ascending;
  - the page and size checks of the page request come before the sort-property check.
- Sorting.DirectionNamed: compares "desc" ignoring case for ASCII letters only. Java's equalsIgnoreCase also folds some non-ASCII letters; that Unicode case folding is not modelled.
- Sorting.LexLeq: orders titles by Unicode code point. This differs from String.compareTo, which compares UTF-16 code units, for characters outside the Basic Multilingual Plane. A database collation used by a real `findAll(Pageable)` may order them differently again.
- Sorting.SortPosts: ties between equal keys keep store order, because the insertion sort is stable. The database gives no such promise.
- PostServices.PostService.GetAllPosts: page and element counts are unbounded integers. Java int/long overflow is not modelled.
- PostServices.PostService.GetAllPosts: a page-request error is modelled as a Failure value rather than a thrown IllegalArgumentException. An unknown sort property fails with NoSuchProperty; the database's own error for it is not modelled.
- PostServices.PostService.GetAllPosts: only id, title, description, content and createdAt are sort keys. Every other name fails with NoSuchProperty, including the post's `category` association, which a repository sort would resolve. A blank sortBy is also reported as NoSuchProperty (or as the page error when the page request is out of range), whereas `Sort.by` rejects it with IllegalArgumentException before the page request is built.
- PostServices.PostService.DeletePostById: JPA cascades are not modelled. The comments of a deleted post stay in the comment table.
- CategoryServices.CategoryService.DeleteCategory: posts that refer to a deleted category are left dangling, as in the repository without a cascade.
- ModelMapper is modelled as a total field copy. The DTO's id is ignored on create, and the repository assigns a fresh one.
- Mockito call counting is not modelled. "Not looked up", "not saved" and "not deleted" are expressed as an unchanged table, and as the lemma that a missing post makes the comment table irrelevant.
- Bean validation of DTO fields, the controllers, security, bootstrapping and concurrency between requests are outside the service layer.
- The clock is a parameter of createPost; its value is not modelled.
