/** The brand endpoints: listing, guarded insert, update and delete on the brands table. A
    `logo` field is `Given(filename)` when a valid image was uploaded; `filename` is the
    stored name the controller derives from the clock. */
module BrandController {
  import opened Common
  import opened Catalog

  const ValidationFailed := Reply(422, "Validation failed")

  /** `index`: every brand, newest first. */
  function Index(db: CatalogDb): (r: seq<nat>)
    reads db
    requires db.Valid()
    ensures forall id :: id in r <==> id in db.brands
    ensures forall i, j :: 0 <= i < j < |r| ==> r[i] > r[j]
  {
    NewestFirst(db.brands, db.nextBrandId)
  }

  /** `name` `required|string|max:255|unique:brands`, `description` `nullable|string`,
      `logo` `nullable|image`. */
  predicate StoreAccepted(brands: map<nat, Brand>, name: Field<string>, description: Field<string>, logo: Field<string>) {
    && RequiredString(name, 255)
    && !BrandNameUsed(brands, name.value, None)
    && Nullable(description)
    && Nullable(logo)
  }

  /** As for `store`, but `name` is `sometimes` and unique except for the brand itself. */
  predicate UpdateAccepted(brands: map<nat, Brand>, id: nat, name: Field<string>, description: Field<string>, logo: Field<string>) {
    && (name.Absent? || (RequiredString(name, 255) && !BrandNameUsed(brands, name.value, Some(id))))
    && Nullable(description)
    && Nullable(logo)
  }

  /** The brand row `store` inserts: without an uploaded file the logo is null. */
  function NewBrand(name: Field<string>, description: Field<string>, logo: Field<string>): (b: Brand)
    requires name.Given?
    ensures b.name == name.value
    ensures !logo.Given? ==> b.logo == None
    ensures logo.Given? ==> b.logo == Some(logo.value)
  {
    Brand(name.value, ColumnValue(description), ColumnValue(logo))
  }

  /** The brand after `update`: name and description from `only(...)`, the logo only when a
      new file is uploaded. */
  function UpdatedBrand(b: Brand, name: Field<string>, description: Field<string>, logo: Field<string>): (u: Brand)
    ensures name.Given? ==> u.name == name.value
    ensures name.Absent? ==> u.name == b.name
    ensures description.Given? ==> u.description == Some(description.value)
    ensures description.Absent? ==> u.description == b.description
    ensures description.Null? ==> u.description == None
    ensures logo.Given? ==> u.logo == Some(logo.value)
    ensures !logo.Given? ==> u.logo == b.logo
  {
    Brand(Patch(name, b.name), PatchNullable(description, b.description), if logo.Given? then Some(logo.value) else b.logo)
  }

  /** A present-but-null logo key neither clears nor replaces the stored logo. */
  lemma NullLogoKeepsLogo(b: Brand, name: Field<string>, description: Field<string>)
    ensures UpdatedBrand(b, name, description, Null).logo == b.logo
    ensures UpdatedBrand(b, Absent, Absent, Null) == b
  {
  }

  method Store(db: CatalogDb, name: Field<string>, description: Field<string>, logo: Field<string>)
    returns (r: Reply, id: Option<nat>)
    requires db.Valid()
    modifies db`brands, db`nextBrandId
    ensures db.Valid()
    ensures !StoreAccepted(old(db.brands), name, description, logo) ==>
      r == ValidationFailed && id == None && db.brands == old(db.brands) && db.nextBrandId == old(db.nextBrandId)
    ensures StoreAccepted(old(db.brands), name, description, logo) ==>
      && r == Reply(201, "Brand created successfully") && id == Some(old(db.nextBrandId))
      && db.brands == old(db.brands)[old(db.nextBrandId) := NewBrand(name, description, logo)]
      && db.nextBrandId == old(db.nextBrandId) + 1
  {
    if !StoreAccepted(db.brands, name, description, logo) {
      return ValidationFailed, None;
    }
    var newId := db.nextBrandId;
    assert newId !in db.brands;
    db.brands := db.brands[newId := NewBrand(name, description, logo)];
    db.nextBrandId := newId + 1;
    r, id := Reply(201, "Brand created successfully"), Some(newId);
  }

  method Update(db: CatalogDb, id: nat, name: Field<string>, description: Field<string>, logo: Field<string>)
    returns (r: Reply)
    requires db.Valid()
    modifies db`brands
    ensures db.Valid()
    ensures id !in old(db.brands) ==> r == ModelNotFound && db.brands == old(db.brands)
    ensures id in old(db.brands) && !UpdateAccepted(old(db.brands), id, name, description, logo) ==>
      r == ValidationFailed && db.brands == old(db.brands)
    ensures id in old(db.brands) && UpdateAccepted(old(db.brands), id, name, description, logo) ==>
      && r == Reply(200, "Brand updated successfully")
      && db.brands == old(db.brands)[id := UpdatedBrand(old(db.brands[id]), name, description, logo)]
  {
    if id !in db.brands {
      return ModelNotFound;
    }
    if !UpdateAccepted(db.brands, id, name, description, logo) {
      return ValidationFailed;
    }
    db.brands := db.brands[id := UpdatedBrand(db.brands[id], name, description, logo)];
    r := Reply(200, "Brand updated successfully");
  }

  method Destroy(db: CatalogDb, id: nat) returns (r: Reply)
    requires db.Valid()
    modifies db`brands
    ensures db.Valid()
    ensures id !in old(db.brands) ==> r == ModelNotFound && db.brands == old(db.brands)
    ensures id in old(db.brands) && HasProducts(db.products, (p: Product) => p.brandId == Some(id)) ==>
      r == Reply(422, "Cannot delete brand with associated products") && db.brands == old(db.brands)
    ensures id in old(db.brands) && !HasProducts(db.products, (p: Product) => p.brandId == Some(id)) ==>
      r == Reply(200, "Brand deleted successfully") && db.brands == old(db.brands) - {id}
  {
    if id !in db.brands {
      return ModelNotFound;
    }
    if HasProducts(db.products, (p: Product) => p.brandId == Some(id)) {
      return Reply(422, "Cannot delete brand with associated products");
    }
    db.brands := db.brands - {id};
    r := Reply(200, "Brand deleted successfully");
  }
}
