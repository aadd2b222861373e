/** The category service: create, read, list, update and delete categories. Every
    lookup by id that finds nothing fails with ResourceNotFound("Category", "id", id);
    a failed call changes nothing. */
module CategoryServices {
  import opened Results
  import opened Entities
  import opened Sequences
  import opened Repositories

  function CategoryEntryToDto(e: (int, Category)): CategoryDto
  {
    CategoryToDto(e.0, e.1)
  }

  class CategoryService {
    const categories: Repository<Category>

    constructor (categories: Repository<Category>)
      ensures this.categories == categories
    {
      this.categories := categories;
    }

    /** `getCategory`: the stored category as a DTO, or NotFound. */
    function GetCategory(id: int): (r: Result<CategoryDto>)
      reads categories
      ensures r.Success? <==> id in categories.rows
      ensures r.Success? ==> r.value == CategoryToDto(id, categories.rows[id])
      ensures r.Failure? ==> r.error == NotFound("Category", id)
    {
      match categories.FindById(id)
      case None => Failure(NotFound("Category", id))
      case Some(c) => Success(CategoryToDto(id, c))
    }

    /** `getAllCategories`: one DTO per stored category, in store order. */
    function GetAllCategories(): (r: seq<CategoryDto>)
      reads categories
      requires categories.Valid()
      ensures |r| == |categories.order| == |categories.rows|
      ensures forall i | 0 <= i < |r| :: r[i].id == categories.order[i]
      ensures forall i | 0 <= i < |r| ::
        r[i].id in categories.rows && r[i] == CategoryToDto(r[i].id, categories.rows[r[i].id])
      ensures forall id | id in categories.rows :: exists i :: 0 <= i < |r| && r[i].id == id
    {
      Map(categories.FindAll(), CategoryEntryToDto)
    }

    /** `addCategory`: stores a new category with the DTO's name and description under
        a fresh id and returns it; reading that id back gives the same DTO. */
    method AddCategory(dto: CategoryDto) returns (r: CategoryDto)
      requires categories.Valid()
      modifies categories
      ensures categories.Valid()
      ensures r.name == dto.name && r.description == dto.description
      ensures r.id !in old(categories.rows)
      ensures categories.rows == old(categories.rows)[r.id := CategoryFromDto(dto)]
      ensures categories.order == old(categories.order) + [r.id]
      ensures GetCategory(r.id) == Success(r)
    {
      var c := CategoryFromDto(dto);
      var id := categories.Insert(c);
      r := CategoryToDto(id, c);
    }

    /** `updateCategory`: overwrites the name and description of the category stored
        under `id`, keeping its id and place; NotFound, with nothing changed, if absent. */
    method UpdateCategory(dto: CategoryDto, id: int) returns (r: Result<CategoryDto>)
      requires categories.Valid()
      modifies categories
      ensures categories.Valid()
      ensures id !in old(categories.rows) ==>
        r == Failure(NotFound("Category", id)) && unchanged(categories)
      ensures id in old(categories.rows) ==>
        && r == Success(CategoryDto(id, dto.name, dto.description))
        && categories.rows == old(categories.rows)[id := Category(dto.name, dto.description)]
        && categories.order == old(categories.order)
        && GetCategory(id) == r
    {
      var found := categories.FindById(id);
      if found.None? {
        return Failure(NotFound("Category", id));
      }
      var c := found.value.(name := dto.name, description := dto.description);
      categories.Update(id, c);
      r := Success(CategoryToDto(id, c));
    }

    /** `deleteCategory`: removes the category stored under `id`, after which looking it
        up fails; NotFound, with nothing changed, if absent. Posts that refer to the
        category are left as they are. */
    method DeleteCategory(id: int) returns (r: Result<()>)
      requires categories.Valid()
      modifies categories
      ensures categories.Valid()
      ensures id !in old(categories.rows) ==>
        r == Failure(NotFound("Category", id)) && unchanged(categories)
      ensures id in old(categories.rows) ==>
        && r == Success(())
        && categories.rows == old(categories.rows) - {id}
        && categories.FindAll() == Filter(old(categories.FindAll()), OtherEntry(id))
        && GetCategory(id) == Failure(NotFound("Category", id))
    {
      var found := categories.FindById(id);
      if found.None? {
        return Failure(NotFound("Category", id));
      }
      categories.Delete(id);
      r := Success(());
    }
  }
}
