/** The slideshow endpoints: the ordered listings, validated insert with defaults, partial
    update and delete on the slides table. */
module SlideshowController {
  import opened Common
  import opened Catalog

  const ValidationFailed := Reply(422, "Validation failed")

  /** `index`: every slide, ordered by `ssorder` (null first). */
  function Index(db: CatalogDb): (r: seq<nat>)
    reads db
    requires db.Valid()
    ensures forall id :: id in r <==> id in db.slides
    ensures forall id :: id in r ==> id in db.slides
    ensures multiset(r) == multiset(OldestFirst(db.slides, db.nextSlideId))
    ensures Distinct(r)
    ensures SortedBySsorder(r, db.slides)
  {
    var ids := OldestFirst(db.slides, db.nextSlideId);
    var r := SortBySsorder(ids, db.slides);
    DistinctPermutation(ids, r);
    assert forall id :: id in r <==> id in ids by {
      forall id ensures id in r <==> id in ids {
        assert id in r <==> id in multiset(r);
      }
    }
    r
  }

  /** The ids of `ids` whose slide is enabled, in the same order. */
  function Enabled(ids: seq<nat>, slides: map<nat, Slide>): (r: seq<nat>)
    requires forall id :: id in ids ==> id in slides
    ensures forall id :: id in r <==> id in ids && slides[id].enable == Some(true)
    ensures Distinct(ids) ==> Distinct(r)
  {
    if |ids| == 0 then []
    else
      var rest := Enabled(ids[1..], slides);
      assert Distinct(ids) ==> Distinct(ids[1..]) && ids[0] !in ids[1..] by {
        if Distinct(ids) {
          forall i, j | 0 <= i < j < |ids| - 1
            ensures ids[1..][i] != ids[1..][j]
          {
            assert ids[1..][i] == ids[i + 1] && ids[1..][j] == ids[j + 1];
          }
          forall k | 0 <= k < |ids| - 1
            ensures ids[1..][k] != ids[0]
          {
            assert ids[1..][k] == ids[k + 1];
          }
        }
      }
      (if slides[ids[0]].enable == Some(true) then [ids[0]] else []) + rest
  }

  /** `getActiveSlides`: exactly the slides with `enable` true, ordered by `ssorder`. */
  function ActiveSlides(db: CatalogDb): (r: seq<nat>)
    reads db
    requires db.Valid()
    ensures forall id :: id in r <==> id in db.slides && db.slides[id].enable == Some(true)
    ensures forall id :: id in r ==> id in db.slides
    ensures multiset(r) == multiset(Enabled(OldestFirst(db.slides, db.nextSlideId), db.slides))
    ensures Distinct(r)
    ensures SortedBySsorder(r, db.slides)
  {
    var ids := Enabled(OldestFirst(db.slides, db.nextSlideId), db.slides);
    var r := SortBySsorder(ids, db.slides);
    DistinctPermutation(ids, r);
    assert forall id :: id in r <==> id in ids by {
      forall id ensures id in r <==> id in ids {
        assert id in r <==> id in multiset(r);
      }
    }
    r
  }

  /** `nullable|integer|min:0` */
  predicate Order(f: Field<int>) {
    !f.Malformed? && (f.Given? ==> f.value >= 0)
  }

  /** The rules of `store`. `link` is `Malformed` when it is not a URL. */
  predicate StoreAccepted(
    products: map<nat, Product>,
    name: Field<string>, description: Field<string>, price: Field<int>, productId: Field<nat>,
    image: Field<string>, enable: Field<bool>, link: Field<string>, ssorder: Field<int>)
  {
    && RequiredString(name, 255)
    && RequiredText(description)
    && price.Given? && price.value >= 0
    && productId.Given? && productId.value in products
    && Nullable(image) && Nullable(enable) && Nullable(link)
    && Order(ssorder)
  }

  /** The rules of `update`: name, description, price and product are `sometimes`. */
  predicate UpdateAccepted(
    products: map<nat, Product>,
    name: Field<string>, description: Field<string>, price: Field<int>, productId: Field<nat>,
    image: Field<string>, enable: Field<bool>, link: Field<string>, ssorder: Field<int>)
  {
    && (name.Absent? || RequiredString(name, 255))
    && (description.Absent? || RequiredText(description))
    && (price.Absent? || (price.Given? && price.value >= 0))
    && (productId.Absent? || (productId.Given? && productId.value in products))
    && Nullable(image) && Nullable(enable) && Nullable(link)
    && Order(ssorder)
  }

  /** The slide `store` inserts: `enable` defaults to true when the key is absent (a null
      key stores null), `ssorder` defaults to 0 when absent or null, no file means no image. */
  function NewSlide(name: Field<string>, description: Field<string>, price: Field<int>, productId: Field<nat>,
                    image: Field<string>, enable: Field<bool>, link: Field<string>, ssorder: Field<int>): (s: Slide)
    requires name.Given? && description.Given? && price.Given? && productId.Given? && Order(ssorder)
    ensures s.name == name.value && s.description == description.value
    ensures enable.Absent? ==> s.enable == Some(true)
    ensures enable.Null? ==> s.enable == None
    ensures enable.Given? ==> s.enable == Some(enable.value)
    ensures link.Given? ==> s.link == Some(link.value)
    ensures !link.Given? ==> s.link == None
    ensures image.Given? ==> s.image == Some(image.value)
    ensures !ssorder.Given? ==> s.ssorder == Some(0)
    ensures ssorder.Given? ==> s.ssorder == Some(ssorder.value as nat)
    ensures !image.Given? ==> s.image == None
    ensures s.productId == productId.value && s.price == price.value
  {
    Slide(
      name.value, description.value, price.value, ColumnValue(image), productId.value,
      if enable.Absent? then Some(true) else ColumnValue(enable),
      ColumnValue(link),
      Some(if ssorder.Given? then ssorder.value as nat else 0))
  }

  /** The slide after `update`: every supplied field among name, description, price, product,
      enable, link and order is written, the others are kept; the image only with a new file. */
  function UpdatedSlide(s: Slide, name: Field<string>, description: Field<string>, price: Field<int>, productId: Field<nat>,
                        image: Field<string>, enable: Field<bool>, link: Field<string>, ssorder: Field<int>): (u: Slide)
    requires Order(ssorder)
    ensures name.Given? ==> u.name == name.value
    ensures name.Absent? ==> u.name == s.name
    ensures description.Given? ==> u.description == description.value
    ensures description.Absent? ==> u.description == s.description
    ensures price.Given? ==> u.price == price.value
    ensures price.Absent? ==> u.price == s.price
    ensures productId.Given? ==> u.productId == productId.value
    ensures productId.Absent? ==> u.productId == s.productId
    ensures enable.Given? ==> u.enable == Some(enable.value)
    ensures enable.Null? ==> u.enable == None
    ensures enable.Absent? ==> u.enable == s.enable
    ensures link.Given? ==> u.link == Some(link.value)
    ensures link.Null? ==> u.link == None
    ensures link.Absent? ==> u.link == s.link
    ensures ssorder.Given? ==> u.ssorder == Some(ssorder.value as nat)
    ensures ssorder.Null? ==> u.ssorder == None
    ensures ssorder.Absent? ==> u.ssorder == s.ssorder
    ensures image.Given? ==> u.image == Some(image.value)
    ensures !image.Given? ==> u.image == s.image
  {
    Slide(
      Patch(name, s.name), Patch(description, s.description), Patch(price, s.price),
      if image.Given? then Some(image.value) else s.image,
      Patch(productId, s.productId),
      PatchNullable(enable, s.enable),
      PatchNullable(link, s.link),
      match ssorder case Given(v) => Some(v as nat) case Null => None case _ => s.ssorder)
  }

  /** An update that supplies nothing leaves the slide as it was. */
  lemma EmptyUpdateKeepsSlide(s: Slide)
    ensures UpdatedSlide(s, Absent, Absent, Absent, Absent, Absent, Absent, Absent, Absent) == s
  {
  }

  method Store(db: CatalogDb, name: Field<string>, description: Field<string>, price: Field<int>, productId: Field<nat>,
               image: Field<string>, enable: Field<bool>, link: Field<string>, ssorder: Field<int>)
    returns (r: Reply, id: Option<nat>)
    requires db.Valid()
    modifies db`slides, db`nextSlideId
    ensures db.Valid()
    ensures !StoreAccepted(db.products, name, description, price, productId, image, enable, link, ssorder) ==>
      r == ValidationFailed && id == None && db.slides == old(db.slides) && db.nextSlideId == old(db.nextSlideId)
    ensures StoreAccepted(db.products, name, description, price, productId, image, enable, link, ssorder) ==>
      && r == Reply(201, "Slideshow created successfully") && id == Some(old(db.nextSlideId))
      && db.slides == old(db.slides)[old(db.nextSlideId) := NewSlide(name, description, price, productId, image, enable, link, ssorder)]
      && db.nextSlideId == old(db.nextSlideId) + 1
  {
    if !StoreAccepted(db.products, name, description, price, productId, image, enable, link, ssorder) {
      return ValidationFailed, None;
    }
    var newId := db.nextSlideId;
    db.slides := db.slides[newId := NewSlide(name, description, price, productId, image, enable, link, ssorder)];
    db.nextSlideId := newId + 1;
    r, id := Reply(201, "Slideshow created successfully"), Some(newId);
  }

  method Update(db: CatalogDb, id: nat, name: Field<string>, description: Field<string>, price: Field<int>, productId: Field<nat>,
                image: Field<string>, enable: Field<bool>, link: Field<string>, ssorder: Field<int>)
    returns (r: Reply)
    requires db.Valid()
    modifies db`slides
    ensures db.Valid()
    ensures id !in old(db.slides) ==> r == ModelNotFound && db.slides == old(db.slides)
    ensures id in old(db.slides) && !UpdateAccepted(db.products, name, description, price, productId, image, enable, link, ssorder) ==>
      r == ValidationFailed && db.slides == old(db.slides)
    ensures id in old(db.slides) && UpdateAccepted(db.products, name, description, price, productId, image, enable, link, ssorder) ==>
      && r == Reply(200, "Slideshow updated successfully")
      && db.slides == old(db.slides)[id := UpdatedSlide(old(db.slides[id]), name, description, price, productId, image, enable, link, ssorder)]
  {
    if id !in db.slides {
      return ModelNotFound;
    }
    if !UpdateAccepted(db.products, name, description, price, productId, image, enable, link, ssorder) {
      return ValidationFailed;
    }
    db.slides := db.slides[id := UpdatedSlide(db.slides[id], name, description, price, productId, image, enable, link, ssorder)];
    r := Reply(200, "Slideshow updated successfully");
  }

  method Destroy(db: CatalogDb, id: nat) returns (r: Reply)
    requires db.Valid()
    modifies db`slides
    ensures db.Valid()
    ensures id !in old(db.slides) ==> r == ModelNotFound && db.slides == old(db.slides)
    ensures id in old(db.slides) ==> r == Reply(200, "Slideshow deleted successfully") && db.slides == old(db.slides) - {id}
  {
    if id !in db.slides {
      return ModelNotFound;
    }
    db.slides := db.slides - {id};
    r := Reply(200, "Slideshow deleted successfully");
  }
}
