/** The `/companies` resource: list, create, rename and delete suppliers.
    A duplicate name is refused by the table's unique index (409). */
module Companies {
  import opened Base
  import opened Text
  import opened Naming
  import opened Tables

  /** GET /: every company once, ordered by name. */
  function ListCompanies(companies: map<int, Company>): (rows: seq<NamedRow>)
    ensures |rows| == |companies|
    ensures forall i :: 0 <= i < |rows| ==>
              rows[i].id in companies && rows[i].name == companies[rows[i].id].name
    ensures forall i, j :: 0 <= i < j < |rows| ==> rows[i].id != rows[j].id
    ensures forall i, j :: 0 <= i < j < |rows| ==> NameLe(rows[i].name, rows[j].name)
  {
    ListNamed(companies, CompanyName)
  }

  /** POST /: blank name 400, a name some company already has 409, otherwise
      one new row holding the trimmed name under the next id. */
  method CreateCompany(db: Store, name: Input<string>) returns (st: Status, id: int)
    requires db.Valid()
    modifies db`companies, db`nextCompany
    ensures db.Valid()
    ensures !Present(name) ==> st == BadRequest(NameRequired)
    ensures Present(name) ==>
              st == (if NameTaken(old(db.companies), CompanyName, Trim(name.value), None)
                     then Conflict else Created)
    ensures st != Created ==> db.companies == old(db.companies)
    ensures st.BadRequest? ==> db.nextCompany == old(db.nextCompany)
    // The INSERT the unique index rejects has already drawn its id, which
    // InnoDB does not hand out again.
    ensures st == Conflict ==> db.nextCompany == old(db.nextCompany) + 1
    ensures st == Created ==>
              && id == old(db.nextCompany) && id !in old(db.companies)
              && db.companies == old(db.companies)[id := Company(Trim(name.value))]
              && db.nextCompany == id + 1
  {
    id := 0;
    if !Present(name) {
      return BadRequest(NameRequired), id;
    }
    var trimmed := Trim(name.value);
    if NameTaken(db.companies, CompanyName, trimmed, None) {
      db.nextCompany := db.nextCompany + 1;
      return Conflict, id;
    }
    id := db.nextCompany;
    StoreNameKeepsUnique(db.companies, CompanyName, id, Company(trimmed));
    db.companies := db.companies[id := Company(trimmed)];
    db.nextCompany := id + 1;
    st := Created;
  }

  /** PUT /:id: blank name 400, unknown id 404, a name another company has
      409, otherwise only that company's name changes. */
  method UpdateCompany(db: Store, id: int, name: Input<string>) returns (st: Status)
    requires db.Valid()
    modifies db`companies
    ensures db.Valid()
    ensures !Present(name) ==> st == BadRequest(NameRequired)
    ensures Present(name) && id !in old(db.companies) ==> st == NotFound
    ensures Present(name) && id in old(db.companies) ==>
              st == (if NameTaken(old(db.companies), CompanyName, Trim(name.value), Some(id))
                     then Conflict else Ok)
    ensures st != Ok ==> db.companies == old(db.companies)
    ensures st == Ok ==> db.companies == old(db.companies)[id := Company(Trim(name.value))]
  {
    if !Present(name) {
      return BadRequest(NameRequired);
    }
    if id !in db.companies {
      return NotFound;
    }
    var trimmed := Trim(name.value);
    if NameTaken(db.companies, CompanyName, trimmed, Some(id)) {
      return Conflict;
    }
    StoreNameKeepsUnique(db.companies, CompanyName, id, Company(trimmed));
    db.companies := db.companies[id := Company(trimmed)];
    st := Ok;
  }

  /** DELETE /:id: unknown id 404; a company some material still references
      is kept by the foreign key (500); otherwise just that row goes. */
  method DeleteCompany(db: Store, id: int) returns (st: Status)
    requires db.Valid()
    modifies db`companies
    ensures db.Valid()
    ensures id !in old(db.companies) ==> st == NotFound
    ensures id in old(db.companies) ==>
              st == (if exists m :: m in db.materials && db.materials[m].company == id
                     then ServerError else NoContent)
    ensures st == NoContent ==> db.companies == old(db.companies) - {id}
    ensures st != NoContent ==> db.companies == old(db.companies)
  {
    if id !in db.companies {
      return NotFound;
    }
    if exists m :: m in db.materials && db.materials[m].company == id {
      return ServerError;
    }
    db.companies := db.companies - {id};
    st := NoContent;
  }
}
