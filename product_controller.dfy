/** The product endpoints: listing, validated insert, partial update and delete on the
    products table. `price` is `Given(cents)` when numeric; `image` is `Given(filename)` when a
    valid image was uploaded. */
module ProductController {
  import opened Common
  import opened Catalog

  const ValidationFailed := Reply(422, "Validation failed")

  /** `index`: every product, newest first. */
  function Index(db: CatalogDb): (r: seq<nat>)
    reads db
    requires db.Valid()
    ensures forall id :: id in r <==> id in db.products
    ensures forall i, j :: 0 <= i < j < |r| ==> r[i] > r[j]
  {
    NewestFirst(db.products, db.nextProductId)
  }

  /** `required|numeric|min:0` */
  predicate Price(f: Field<int>) {
    f.Given? && f.value >= 0
  }

  /** `brand_id` `nullable|exists:brands,id` */
  predicate OptionalBrand(f: Field<nat>, brands: map<nat, Brand>) {
    !f.Malformed? && (f.Given? ==> f.value in brands)
  }

  /** The rules of `store`. */
  predicate StoreAccepted(
    categories: map<nat, Category>, brands: map<nat, Brand>,
    name: Field<string>, description: Field<string>, price: Field<int>,
    categoryId: Field<nat>, brandId: Field<nat>, image: Field<string>)
  {
    && RequiredString(name, 255)
    && RequiredText(description)
    && Price(price)
    && categoryId.Given? && categoryId.value in categories
    && OptionalBrand(brandId, brands)
    && Nullable(image)
  }

  /** The rules of `update`: the same rules, each `sometimes`. */
  predicate UpdateAccepted(
    categories: map<nat, Category>, brands: map<nat, Brand>,
    name: Field<string>, description: Field<string>, price: Field<int>,
    categoryId: Field<nat>, brandId: Field<nat>, image: Field<string>)
  {
    && (name.Absent? || RequiredString(name, 255))
    && (description.Absent? || RequiredText(description))
    && (price.Absent? || Price(price))
    && (categoryId.Absent? || (categoryId.Given? && categoryId.value in categories))
    && OptionalBrand(brandId, brands)
    && Nullable(image)
  }

  /** The product row `store` inserts: without an uploaded file the image is null. */
  function NewProduct(name: Field<string>, description: Field<string>, price: Field<int>,
                      categoryId: Field<nat>, brandId: Field<nat>, image: Field<string>): (p: Product)
    requires name.Given? && description.Given? && price.Given? && categoryId.Given?
    ensures p.name == name.value && p.description == description.value && p.price == price.value
    ensures p.categoryId == categoryId.value
    ensures p.brandId == (if brandId.Given? then Some(brandId.value) else None)
    ensures !image.Given? ==> p.image == None
  {
    Product(name.value, description.value, price.value, ColumnValue(image), categoryId.value, ColumnValue(brandId))
  }

  /** The product after `update`: each supplied field among name, description, price,
      category and brand is written, the others are kept; the image changes only with a new file. */
  function UpdatedProduct(p: Product, name: Field<string>, description: Field<string>, price: Field<int>,
                          categoryId: Field<nat>, brandId: Field<nat>, image: Field<string>): (u: Product)
    ensures name.Given? ==> u.name == name.value
    ensures name.Absent? ==> u.name == p.name
    ensures description.Given? ==> u.description == description.value
    ensures description.Absent? ==> u.description == p.description
    ensures price.Given? ==> u.price == price.value
    ensures price.Absent? ==> u.price == p.price
    ensures categoryId.Given? ==> u.categoryId == categoryId.value
    ensures categoryId.Absent? ==> u.categoryId == p.categoryId
    ensures brandId.Given? ==> u.brandId == Some(brandId.value)
    ensures brandId.Absent? ==> u.brandId == p.brandId
    ensures brandId.Null? ==> u.brandId == None
    ensures image.Given? ==> u.image == Some(image.value)
    ensures !image.Given? ==> u.image == p.image
  {
    Product(
      Patch(name, p.name), Patch(description, p.description), Patch(price, p.price),
      if image.Given? then Some(image.value) else p.image,
      Patch(categoryId, p.categoryId), PatchNullable(brandId, p.brandId))
  }

  /** A product written by `store` or `update` references what the catalog holds. */
  lemma AcceptedProductsReference(
    categories: map<nat, Category>, brands: map<nat, Brand>, p: Product,
    name: Field<string>, description: Field<string>, price: Field<int>,
    categoryId: Field<nat>, brandId: Field<nat>, image: Field<string>)
    ensures StoreAccepted(categories, brands, name, description, price, categoryId, brandId, image) ==>
      References(NewProduct(name, description, price, categoryId, brandId, image), categories, brands)
    ensures References(p, categories, brands) && UpdateAccepted(categories, brands, name, description, price, categoryId, brandId, image) ==>
      References(UpdatedProduct(p, name, description, price, categoryId, brandId, image), categories, brands)
  {
  }

  method Store(db: CatalogDb, name: Field<string>, description: Field<string>, price: Field<int>,
               categoryId: Field<nat>, brandId: Field<nat>, image: Field<string>)
    returns (r: Reply, id: Option<nat>)
    requires db.Valid()
    modifies db`products, db`nextProductId
    ensures db.Valid()
    ensures !StoreAccepted(db.categories, db.brands, name, description, price, categoryId, brandId, image) ==>
      r == ValidationFailed && id == None && db.products == old(db.products) && db.nextProductId == old(db.nextProductId)
    ensures StoreAccepted(db.categories, db.brands, name, description, price, categoryId, brandId, image) ==>
      && r == Reply(201, "Product created successfully") && id == Some(old(db.nextProductId))
      && db.products == old(db.products)[old(db.nextProductId) := NewProduct(name, description, price, categoryId, brandId, image)]
      && db.nextProductId == old(db.nextProductId) + 1
  {
    if !StoreAccepted(db.categories, db.brands, name, description, price, categoryId, brandId, image) {
      return ValidationFailed, None;
    }
    var newId := db.nextProductId;
    db.products := db.products[newId := NewProduct(name, description, price, categoryId, brandId, image)];
    db.nextProductId := newId + 1;
    r, id := Reply(201, "Product created successfully"), Some(newId);
  }

  method Update(db: CatalogDb, id: nat, name: Field<string>, description: Field<string>, price: Field<int>,
                categoryId: Field<nat>, brandId: Field<nat>, image: Field<string>)
    returns (r: Reply)
    requires db.Valid()
    modifies db`products
    ensures db.Valid()
    ensures id !in old(db.products) ==> r == ModelNotFound && db.products == old(db.products)
    ensures id in old(db.products) && !UpdateAccepted(db.categories, db.brands, name, description, price, categoryId, brandId, image) ==>
      r == ValidationFailed && db.products == old(db.products)
    ensures id in old(db.products) && UpdateAccepted(db.categories, db.brands, name, description, price, categoryId, brandId, image) ==>
      && r == Reply(200, "Product updated successfully")
      && db.products == old(db.products)[id := UpdatedProduct(old(db.products[id]), name, description, price, categoryId, brandId, image)]
  {
    if id !in db.products {
      return ModelNotFound;
    }
    if !UpdateAccepted(db.categories, db.brands, name, description, price, categoryId, brandId, image) {
      return ValidationFailed;
    }
    AcceptedProductsReference(db.categories, db.brands, db.products[id], name, description, price, categoryId, brandId, image);
    db.products := db.products[id := UpdatedProduct(db.products[id], name, description, price, categoryId, brandId, image)];
    r := Reply(200, "Product updated successfully");
  }

  method Destroy(db: CatalogDb, id: nat) returns (r: Reply)
    requires db.Valid()
    modifies db`products
    ensures db.Valid()
    ensures id !in old(db.products) ==> r == ModelNotFound && db.products == old(db.products)
    ensures id in old(db.products) ==> r == Reply(200, "Product deleted successfully") && db.products == old(db.products) - {id}
  {
    if id !in db.products {
      return ModelNotFound;
    }
    db.products := db.products - {id};
    r := Reply(200, "Product deleted successfully");
  }
}
