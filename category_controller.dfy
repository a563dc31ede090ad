/** The category endpoints: listing, guarded insert, update and delete on the categories table. */
module CategoryController {
  import opened Common
  import opened Catalog

  const ValidationFailed := Reply(422, "Validation failed")

  /** `index`: every category, newest first. */
  function Index(db: CatalogDb): (r: seq<nat>)
    reads db
    requires db.Valid()
    ensures forall id :: id in r <==> id in db.categories
    ensures forall i, j :: 0 <= i < j < |r| ==> r[i] > r[j]
  {
    NewestFirst(db.categories, db.nextCategoryId)
  }

  /** The rules of `store`: `name` `required|string|max:255|unique:categories`,
      `description` `nullable|string`. */
  predicate StoreAccepted(categories: map<nat, Category>, name: Field<string>, description: Field<string>) {
    && RequiredString(name, 255)
    && !CategoryNameUsed(categories, name.value, None)
    && Nullable(description)
  }

  /** The rules of `update`: as for `store` but `sometimes`, and unique except for itself. */
  predicate UpdateAccepted(categories: map<nat, Category>, id: nat, name: Field<string>, description: Field<string>) {
    && (name.Absent? || (RequiredString(name, 255) && !CategoryNameUsed(categories, name.value, Some(id))))
    && Nullable(description)
  }

  /** A category may be saved under its own name again. */
  lemma UpdateKeepsOwnName(categories: map<nat, Category>, id: nat, description: Field<string>)
    requires UniqueCategoryNames(categories) && id in categories
    requires RequiredString(Given(categories[id].name), 255) && Nullable(description)
    ensures UpdateAccepted(categories, id, Given(categories[id].name), description)
  {
  }

  /** Another category's name is refused, on insert and on update alike. */
  lemma OtherNamesRefused(categories: map<nat, Category>, id: nat, other: nat, description: Field<string>)
    requires other in categories && other != id
    ensures !StoreAccepted(categories, Given(categories[other].name), description)
    ensures !UpdateAccepted(categories, id, Given(categories[other].name), description)
  {
    assert Some(other) != Some(id) && Some(other) != None;
  }

  method Store(db: CatalogDb, name: Field<string>, description: Field<string>) returns (r: Reply, id: Option<nat>)
    requires db.Valid()
    modifies db`categories, db`nextCategoryId
    ensures db.Valid()
    ensures !StoreAccepted(old(db.categories), name, description) ==>
      r == ValidationFailed && id == None &&
      db.categories == old(db.categories) && db.nextCategoryId == old(db.nextCategoryId)
    ensures StoreAccepted(old(db.categories), name, description) ==>
      && r == Reply(201, "Category created successfully") && id == Some(old(db.nextCategoryId))
      && db.categories == old(db.categories)[old(db.nextCategoryId) := Category(name.value, ColumnValue(description))]
      && db.nextCategoryId == old(db.nextCategoryId) + 1
  {
    if !StoreAccepted(db.categories, name, description) {
      return ValidationFailed, None;
    }
    var newId := db.nextCategoryId;
    assert newId !in db.categories;
    db.categories := db.categories[newId := Category(name.value, ColumnValue(description))];
    db.nextCategoryId := newId + 1;
    r, id := Reply(201, "Category created successfully"), Some(newId);
  }

  method Update(db: CatalogDb, id: nat, name: Field<string>, description: Field<string>) returns (r: Reply)
    requires db.Valid()
    modifies db`categories
    ensures db.Valid()
    ensures id !in old(db.categories) ==> r == ModelNotFound && db.categories == old(db.categories)
    ensures id in old(db.categories) && !UpdateAccepted(old(db.categories), id, name, description) ==>
      r == ValidationFailed && db.categories == old(db.categories)
    ensures id in old(db.categories) && UpdateAccepted(old(db.categories), id, name, description) ==>
      && r == Reply(200, "Category updated successfully")
      && db.categories == old(db.categories)[id := Category(
           Patch(name, old(db.categories[id].name)),
           PatchNullable(description, old(db.categories[id].description)))]
  {
    if id !in db.categories {
      return ModelNotFound;
    }
    if !UpdateAccepted(db.categories, id, name, description) {
      return ValidationFailed;
    }
    var c := db.categories[id];
    c := c.(name := Patch(name, c.name), description := PatchNullable(description, c.description));
    db.categories := db.categories[id := c];
    r := Reply(200, "Category updated successfully");
  }

  method Destroy(db: CatalogDb, id: nat) returns (r: Reply)
    requires db.Valid()
    modifies db`categories
    ensures db.Valid()
    ensures id !in old(db.categories) ==> r == ModelNotFound && db.categories == old(db.categories)
    ensures id in old(db.categories) && HasProducts(db.products, (p: Product) => p.categoryId == id) ==>
      r == Reply(422, "Cannot delete category with associated products") && db.categories == old(db.categories)
    ensures id in old(db.categories) && !HasProducts(db.products, (p: Product) => p.categoryId == id) ==>
      r == Reply(200, "Category deleted successfully") && db.categories == old(db.categories) - {id}
  {
    if id !in db.categories {
      return ModelNotFound;
    }
    if HasProducts(db.products, (p: Product) => p.categoryId == id) {
      return Reply(422, "Cannot delete category with associated products");
    }
    db.categories := db.categories - {id};
    r := Reply(200, "Category deleted successfully");
  }
}
