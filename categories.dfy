/** The `/categories` resource: list, create, rename and delete furniture categories.
    A duplicate name is refused by the table's unique index (409). */
module Categories {
  import opened Base
  import opened Text
  import opened Naming
  import opened Tables

  /** GET /: every category once, ordered by name. */
  function ListCategories(categories: map<int, Category>): (rows: seq<NamedRow>)
    ensures |rows| == |categories|
    ensures forall i :: 0 <= i < |rows| ==>
              rows[i].id in categories && rows[i].name == categories[rows[i].id].name
    ensures forall i, j :: 0 <= i < j < |rows| ==> rows[i].id != rows[j].id
    ensures forall i, j :: 0 <= i < j < |rows| ==> NameLe(rows[i].name, rows[j].name)
  {
    ListNamed(categories, CategoryName)
  }

  /** POST /: blank name 400, a name some category already has 409, otherwise
      one new row holding the trimmed name under the next id. */
  method CreateCategory(db: Store, name: Input<string>) returns (st: Status, id: int)
    requires db.Valid()
    modifies db`categories, db`nextCategory
    ensures db.Valid()
    ensures !Present(name) ==> st == BadRequest(NameRequired)
    ensures Present(name) ==>
              st == (if NameTaken(old(db.categories), CategoryName, Trim(name.value), None)
                     then Conflict else Created)
    ensures st != Created ==> db.categories == old(db.categories)
    ensures st.BadRequest? ==> db.nextCategory == old(db.nextCategory)
    // The INSERT the unique index rejects has already drawn its id, which
    // InnoDB does not hand out again.
    ensures st == Conflict ==> db.nextCategory == old(db.nextCategory) + 1
    ensures st == Created ==>
              && id == old(db.nextCategory) && id !in old(db.categories)
              && db.categories == old(db.categories)[id := Category(Trim(name.value))]
              && db.nextCategory == id + 1
  {
    id := 0;
    if !Present(name) {
      return BadRequest(NameRequired), id;
    }
    var trimmed := Trim(name.value);
    if NameTaken(db.categories, CategoryName, trimmed, None) {
      db.nextCategory := db.nextCategory + 1;
      return Conflict, id;
    }
    id := db.nextCategory;
    StoreNameKeepsUnique(db.categories, CategoryName, id, Category(trimmed));
    db.categories := db.categories[id := Category(trimmed)];
    db.nextCategory := id + 1;
    st := Created;
  }

  /** PUT /:id: blank name 400, unknown id 404, a name another category has
      409, otherwise only that category's name changes. */
  method UpdateCategory(db: Store, id: int, name: Input<string>) returns (st: Status)
    requires db.Valid()
    modifies db`categories
    ensures db.Valid()
    ensures !Present(name) ==> st == BadRequest(NameRequired)
    ensures Present(name) && id !in old(db.categories) ==> st == NotFound
    ensures Present(name) && id in old(db.categories) ==>
              st == (if NameTaken(old(db.categories), CategoryName, Trim(name.value), Some(id))
                     then Conflict else Ok)
    ensures st != Ok ==> db.categories == old(db.categories)
    ensures st == Ok ==> db.categories == old(db.categories)[id := Category(Trim(name.value))]
  {
    if !Present(name) {
      return BadRequest(NameRequired);
    }
    if id !in db.categories {
      return NotFound;
    }
    var trimmed := Trim(name.value);
    if NameTaken(db.categories, CategoryName, trimmed, Some(id)) {
      return Conflict;
    }
    StoreNameKeepsUnique(db.categories, CategoryName, id, Category(trimmed));
    db.categories := db.categories[id := Category(trimmed)];
    st := Ok;
  }

  /** DELETE /:id: unknown id 404; a category some furniture model still
      references is kept by the foreign key (500); otherwise just that row
      goes. */
  method DeleteCategory(db: Store, id: int) returns (st: Status)
    requires db.Valid()
    modifies db`categories
    ensures db.Valid()
    ensures id !in old(db.categories) ==> st == NotFound
    ensures id in old(db.categories) ==>
              st == (if exists m :: m in db.models && db.models[m].category == id
                     then ServerError else NoContent)
    ensures st == NoContent ==> db.categories == old(db.categories) - {id}
    ensures st != NoContent ==> db.categories == old(db.categories)
  {
    if id !in db.categories {
      return NotFound;
    }
    if exists m :: m in db.models && db.models[m].category == id {
      return ServerError;
    }
    db.categories := db.categories - {id};
    st := NoContent;
  }
}
