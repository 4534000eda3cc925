/**
 * The category table: create with a name-uniqueness check, lookups by key
 * and by name, and an edit that overwrites without re-checking the name.
 */
module CategoryServices {
  import opened Base
  import opened Entities

  predicate NameTaken(categories: map<CategoryId, Category>, name: string)
  {
    exists id :: id in categories && categories[id].name == name
  }

  function NameOf(c: Category): string { c.name }

  /** No two stored categories share a name. */
  ghost predicate NamesUnique(categories: map<CategoryId, Category>)
  {
    forall a, b {:trigger NameOf(categories[a]), NameOf(categories[b])} ::
      a in categories && b in categories && NameOf(categories[a]) == NameOf(categories[b]) ==> a == b
  }

  /** Adding a category under a fresh key with a name no category has keeps the names unique. */
  lemma FreshNameKeepsNamesUnique(categories: map<CategoryId, Category>, id: CategoryId, category: Category)
    requires NamesUnique(categories) && id !in categories && !NameTaken(categories, category.name)
    ensures NamesUnique(categories[id := category])
  {
    var after := categories[id := category];
    forall a, b | a in after && b in after && NameOf(after[a]) == NameOf(after[b]) ensures a == b {
      if a != id && b != id {
        assert NameOf(after[a]) == NameOf(categories[a]) && NameOf(after[b]) == NameOf(categories[b]);
      }
    }
  }

  /** While the names are unique, a name lookup succeeds exactly when some category has that name. */
  lemma LookupWithUniqueNames(categories: map<CategoryId, Category>, name: string)
    requires NamesUnique(categories)
    ensures FindCategoryByName(categories, name).Ok? <==> NameTaken(categories, name)
  {
    if NameTaken(categories, name) {
      var id :| id in categories && categories[id].name == name;
      forall b | b in NameMatches(categories, name) ensures b == id {
        assert NameOf(categories[b]) == NameOf(categories[id]);
      }
      OnlyElement(NameMatches(categories, name), id);
    }
  }

  /** The keys of the categories with that name. */
  function NameMatches(categories: map<CategoryId, Category>, name: string): (ids: set<CategoryId>)
    ensures ids <= categories.Keys
    ensures forall id :: id in ids <==> id in categories && categories[id].name == name
  {
    set id | id in categories && categories[id].name == name
  }

  /** `findCategoryById`: the stored category, or NotFound. */
  function FindCategoryById(categories: map<CategoryId, Category>, id: CategoryId): (r: Result<Category>)
    ensures r.Ok? <==> id in categories
    ensures r.Ok? ==> r.value == categories[id]
    ensures r.Err? ==> r.error == NotFound(CategoryNotFound)
  {
    FindById(categories, id, CategoryNotFound)
  }

  /** `findCategoryByName`: the one category with that name, NotFound if none, NonUniqueResult if several. */
  function FindCategoryByName(categories: map<CategoryId, Category>, name: string): (r: Result<Row<Category>>)
    ensures r.Ok? ==> r.value.id in categories && categories[r.value.id] == r.value.entity && r.value.entity.name == name
    ensures r.Ok? ==> NameMatches(categories, name) == {r.value.id}
    ensures r == Err(NotFound(CategoryNotFound)) <==> !NameTaken(categories, name)
    ensures r == Err(NonUniqueResult) <==> |NameMatches(categories, name)| >= 2
    ensures r.Err? ==> r.error == NotFound(CategoryNotFound) || r.error == NonUniqueResult
  {
    var ids := NameMatches(categories, name);
    assert NameTaken(categories, name) <==> ids != {} by {
      if NameTaken(categories, name) {
        var id :| id in categories && categories[id].name == name;
        assert id in ids;
      }
    }
    SingleRow(categories, ids, CategoryNotFound)
  }

  class CategoryService {
    var categories: map<CategoryId, Category>
    var nextId: CategoryId

    /** Keys are handed out in increasing order, so the next one is always free. */
    ghost predicate Valid()
      reads this
    {
      forall id :: id in categories ==> id < nextId
    }

    constructor ()
      ensures Valid() && categories == map[]
    {
      categories := map[];
      nextId := 0;
    }

    /**
     * `createNewCategory`: Conflict when a category already has the name;
     * InvalidEntity when the save refuses a name or description that breaks
     * the declared constraints; otherwise the new category, active, with the
     * request's name and description, under a fresh key.
     */
    method CreateNewCategory(dto: CategoryDto) returns (r: Result<Row<Category>>)
      requires Valid()
      modifies this
      ensures Valid()
      ensures r.Ok? <==> !NameTaken(old(categories), dto.name) && CategoryValid(CategoryWith(NewCategory(), dto))
      ensures FindCategoryByName(old(categories), dto.name).Ok? ==> r == Err(Conflict(DuplicateCategoryName))
      ensures FindCategoryByName(old(categories), dto.name) == Err(NonUniqueResult) ==> r == Err(NonUniqueResult)
      ensures !NameTaken(old(categories), dto.name) && !CategoryValid(CategoryWith(NewCategory(), dto)) ==>
                r == Err(InvalidEntity)
      ensures NamesUnique(old(categories)) && NameTaken(old(categories), dto.name) ==> r == Err(Conflict(DuplicateCategoryName))
      ensures NamesUnique(old(categories)) ==> NamesUnique(categories)
      ensures r.Err? ==> categories == old(categories) && nextId == old(nextId)
      ensures r.Ok? ==>
                && r.value.id == old(nextId) && r.value.id !in old(categories)
                && r.value.entity.name == dto.name && r.value.entity.description == dto.description
                && r.value.entity.isActive
                && categories == old(categories)[r.value.id := r.value.entity]
                && nextId == old(nextId) + 1
    {
      var found := FindCategoryByName(categories, dto.name);
      if NamesUnique(categories) {
        LookupWithUniqueNames(categories, dto.name);
      }
      if found.Ok? {
        return Err(Conflict(DuplicateCategoryName));
      } else if found.error == NonUniqueResult {
        return Err(NonUniqueResult);
      }
      var category := CategoryWith(NewCategory(), dto);
      if !CategoryValid(category) {
        return Err(InvalidEntity);
      }
      if NamesUnique(categories) {
        FreshNameKeepsNamesUnique(categories, nextId, category);
      }
      r := Ok(Row(nextId, category));
      categories := categories[nextId := category];
      nextId := nextId + 1;
    }

    /**
     * `editCategory`: NotFound for an unknown key, InvalidEntity when the
     * new fields break the declared constraints; otherwise name and
     * description are overwritten, with no check that the name stays unique.
     */
    method EditCategory(id: CategoryId, dto: CategoryDto) returns (r: Result<Category>)
      requires Valid()
      modifies this
      ensures Valid() && nextId == old(nextId)
      ensures id !in old(categories) ==> r == Err(NotFound(CategoryNotFound))
      ensures id in old(categories) && !CategoryValid(CategoryWith(old(categories)[id], dto)) ==> r == Err(InvalidEntity)
      ensures r.Err? ==> categories == old(categories)
      ensures r.Ok? <==> id in old(categories) && CategoryValid(CategoryWith(old(categories)[id], dto))
      ensures r.Ok? ==>
                && r.value.name == dto.name && r.value.description == dto.description
                && r.value.isActive == old(categories)[id].isActive
                && categories == old(categories)[id := r.value]
    {
      var found := FindCategoryById(categories, id);
      if found.Err? {
        return Err(found.error);
      }
      var category := CategoryWith(found.value, dto);
      if !CategoryValid(category) {
        return Err(InvalidEntity);
      }
      categories := categories[id := category];
      r := Ok(category);
    }
  }

  /**
   * Because the edit does not re-check, it can give a category the name of
   * another, after which the lookup by that name (and so product creation
   * or edit naming it) fails with NonUniqueResult.
   */
  lemma EditCanMakeNameAmbiguous()
    ensures var before := map[1 := Category("Books", "", true), 2 := Category("Games", "", true)];
            var after := before[2 := CategoryWith(before[2], CategoryDto("Books", ""))];
            && NamesUnique(before) && !NamesUnique(after)
            && FindCategoryByName(before, "Books").Ok? && FindCategoryByName(after, "Books") == Err(NonUniqueResult)
  {
    var before := map[1 := Category("Books", "", true), 2 := Category("Games", "", true)];
    var after := before[2 := CategoryWith(before[2], CategoryDto("Books", ""))];
    assert NameMatches(after, "Books") == {1, 2};
    assert NameMatches(before, "Books") == {1};
    assert NameOf(after[1]) == NameOf(after[2]);
    assert NameOf(before[1]) != NameOf(before[2]) by {
      assert before[1].name[0] != before[2].name[0];
    }
  }
}
