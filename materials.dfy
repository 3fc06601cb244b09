/** The `/materials` resource: raw materials (wood, iron, plastic), each
    supplied by a company. */
module Materials {
  import opened Base
  import opened Text
  import opened Collections
  import opened Tables
  import Naming

  /** The whitelist of material types. */
  predicate ValidType(s: string)
  {
    s == "Bois" || s == "Fer" || s == "Plastique"
  }

  /** JavaScript truthiness of a string field: given and not empty. */
  predicate Filled(x: Input<string>)
  {
    x.Given? && x.value != []
  }

  /** A row of the listing and of the detail: the material joined with the
      name of its company. */
  datatype MaterialRow = MaterialRow(id: int, name: string, kind: string, companyId: int, company: string)

  function RowOf(id: int, m: Material, companies: map<int, Company>): MaterialRow
    requires m.company in companies
  {
    MaterialRow(id, m.name, m.kind, m.company, companies[m.company].name)
  }

  /** The filters of GET /: the company join, `m.type = ?` when a type is
      given and `m.company_id = ?` when a company is given. A missing or empty
      query parameter is `None`; a finite company parameter that is not an
      integer matches no row (a non-finite one makes the statement fail,
      see `ListMaterials`). */
  predicate Listed(kind: Option<string>, company: Option<Num>, companies: map<int, Company>,
                   id: int, m: Material)
  {
    m.company in companies && Filters(kind, company, m)
  }

  predicate Filters(kind: Option<string>, company: Option<Num>, m: Material)
  {
    && (kind.Some? && kind.value != [] ==> m.kind == kind.value)
    && (company.Some? ==> company.value == Int(m.company))
  }

  predicate ByName(a: MaterialRow, b: MaterialRow)
  {
    NameLe(a.name, b.name)
  }

  /** The materials the filters keep. */
  function Kept(kind: Option<string>, company: Option<Num>,
                materials: map<int, Material>, companies: map<int, Company>): (ms: map<int, Material>)
    ensures forall id :: id in ms <==> id in materials && Listed(kind, company, companies, id, materials[id])
    ensures forall id :: id in ms ==> ms[id] == materials[id]
  {
    map id | id in materials && Listed(kind, company, companies, id, materials[id]) :: materials[id]
  }

  /** The rows the filters keep, in primary-key order. */
  function ScanMaterials(kind: Option<string>, company: Option<Num>,
                         materials: map<int, Material>, companies: map<int, Company>)
    : (scan: seq<MaterialRow>)
    ensures forall i :: 0 <= i < |scan| ==>
              && scan[i].id in materials
              && Listed(kind, company, companies, scan[i].id, materials[scan[i].id])
              && scan[i] == RowOf(scan[i].id, materials[scan[i].id], companies)
    ensures forall i, j :: 0 <= i < j < |scan| ==> scan[i].id < scan[j].id
  {
    var es := Entries(Kept(kind, company, materials, companies));
    EntriesSound(Kept(kind, company, materials, companies));
    seq(|es|, i requires 0 <= i < |es| => RowOf(es[i].0, es[i].1, companies))
  }

  lemma {:induction false} ScanMaterialsComplete(kind: Option<string>, company: Option<Num>,
                                                 materials: map<int, Material>,
                                                 companies: map<int, Company>, id: int)
    requires id in materials && Listed(kind, company, companies, id, materials[id])
    ensures RowOf(id, materials[id], companies) in ScanMaterials(kind, company, materials, companies)
  {
    var ms := Kept(kind, company, materials, companies);
    EntriesComplete(ms, id);
    var i :| 0 <= i < |Entries(ms)| && Entries(ms)[i] == (id, materials[id]);
    assert ScanMaterials(kind, company, materials, companies)[i] == RowOf(id, materials[id], companies);
  }

  /** The filtered rows, each once, ordered by name. */
  function MaterialsByName(kind: Option<string>, company: Option<Num>,
                           materials: map<int, Material>, companies: map<int, Company>)
    : (rows: seq<MaterialRow>)
    ensures forall i :: 0 <= i < |rows| ==>
              && rows[i].id in materials
              && Listed(kind, company, companies, rows[i].id, materials[rows[i].id])
              && rows[i] == RowOf(rows[i].id, materials[rows[i].id], companies)
    ensures forall i, j :: 0 <= i < j < |rows| ==> rows[i].id != rows[j].id
    ensures forall i, j :: 0 <= i < j < |rows| ==> NameLe(rows[i].name, rows[j].name)
  {
    var scan := ScanMaterials(kind, company, materials, companies);
    assert Distinct(scan);
    Naming.ByNameIsTotalPreorder(ByName, (r: MaterialRow) => r.name);
    var rows := OrderBy(scan, ByName);
    assert forall i :: 0 <= i < |rows| ==> rows[i] in scan;
    rows
  }

  /** GET /: a type outside the whitelist is refused with 400; a company
      parameter that is not finite makes the statement fail (500); otherwise
      the materials every given filter accepts, each once, joined with their
      company, ordered by name. */
  function ListMaterials(kind: Option<string>, company: Option<Num>,
                         materials: map<int, Material>, companies: map<int, Company>)
    : (r: Reply<seq<MaterialRow>>)
    ensures r.Failure? <==> (kind.Some? && kind.value != [] && !ValidType(kind.value)) || Unwritable(company)
    ensures r.Failure? ==>
              r.status == (if kind.Some? && kind.value != [] && !ValidType(kind.value)
                           then BadRequest(InvalidType) else ServerError)
    ensures r.Success? ==>
              && (forall i :: 0 <= i < |r.body| ==>
                    && r.body[i].id in materials
                    && Listed(kind, company, companies, r.body[i].id, materials[r.body[i].id])
                    && r.body[i] == RowOf(r.body[i].id, materials[r.body[i].id], companies))
              && (forall i, j :: 0 <= i < j < |r.body| ==> r.body[i].id != r.body[j].id)
              && (forall i, j :: 0 <= i < j < |r.body| ==> NameLe(r.body[i].name, r.body[j].name))
  {
    if kind.Some? && kind.value != [] && !ValidType(kind.value) then
      Failure(BadRequest(InvalidType))
    else if Unwritable(company) then
      Failure(ServerError)
    else
      Success(MaterialsByName(kind, company, materials, companies))
  }

  /** Every material the filters accept is listed. */
  lemma {:induction false} ListMaterialsComplete(kind: Option<string>, company: Option<Num>,
                                                 materials: map<int, Material>,
                                                 companies: map<int, Company>, id: int)
    requires !(kind.Some? && kind.value != [] && !ValidType(kind.value))
    requires id in materials && Listed(kind, company, companies, id, materials[id])
    ensures RowOf(id, materials[id], companies) in ListMaterials(kind, company, materials, companies).body
  {
    assert ListMaterials(kind, company, materials, companies).body == MaterialsByName(kind, company, materials, companies);
    ScanMaterialsComplete(kind, company, materials, companies, id);
    Naming.ByNameIsTotalPreorder(ByName, (r: MaterialRow) => r.name);
    OrderByComplete(ScanMaterials(kind, company, materials, companies), ByName,
                    RowOf(id, materials[id], companies));
  }

  /** One condition of the `WHERE` clause GET / assembles. */
  datatype Condition = TypeIs(kind: string) | CompanyIs(company: Num)

  predicate Meets(m: Material, c: Condition)
  {
    match c
    case TypeIs(k) => m.kind == k
    case CompanyIs(n) => n == Int(m.company)
  }

  predicate MeetsAll(m: Material, conditions: seq<Condition>)
  {
    forall i :: 0 <= i < |conditions| ==> Meets(m, conditions[i])
  }

  /** The driver can write the condition's parameter into the statement
      text as a value the engine accepts. */
  predicate Literal(c: Condition)
  {
    !(c.CompanyIs? && c.company.NonFinite?)
  }

  predicate AllLiteral(conditions: seq<Condition>)
  {
    forall i :: 0 <= i < |conditions| ==> Literal(conditions[i])
  }

  lemma AllLiteralSnoc(conditions: seq<Condition>, c: Condition)
    ensures AllLiteral(conditions + [c]) <==> AllLiteral(conditions) && Literal(c)
  {
    if AllLiteral(conditions + [c]) {
      assert (conditions + [c])[|conditions|] == c;
      forall i | 0 <= i < |conditions| ensures Literal(conditions[i]) {
        assert (conditions + [c])[i] == conditions[i];
      }
    }
  }

  lemma MeetsAllSnoc(conditions: seq<Condition>, c: Condition)
    ensures forall m :: MeetsAll(m, conditions + [c]) <==> MeetsAll(m, conditions) && Meets(m, c)
  {
    forall m ensures MeetsAll(m, conditions + [c]) <==> MeetsAll(m, conditions) && Meets(m, c) {
      if MeetsAll(m, conditions + [c]) {
        assert (conditions + [c])[|conditions|] == c;
        forall i | 0 <= i < |conditions| ensures Meets(m, conditions[i]) {
          assert (conditions + [c])[i] == conditions[i];
        }
      }
    }
  }

  /** The query with an assembled `WHERE` clause: the joined rows meeting
      every condition, in primary-key order. */
  function ScanWhere(conditions: seq<Condition>, materials: map<int, Material>,
                     companies: map<int, Company>): (scan: seq<MaterialRow>)
  {
    var ms := map id | id in materials && materials[id].company in companies
                       && MeetsAll(materials[id], conditions) :: materials[id];
    var es := Entries(ms);
    EntriesSound(ms);
    seq(|es|, i requires 0 <= i < |es| => RowOf(es[i].0, es[i].1, companies))
  }

  /** A clause whose conditions say what the filters say runs the listed
      query. */
  lemma ScanWhereIsScan(kind: Option<string>, company: Option<Num>, conditions: seq<Condition>,
                        materials: map<int, Material>, companies: map<int, Company>)
    requires forall m :: MeetsAll(m, conditions) <==> Filters(kind, company, m)
    ensures ScanWhere(conditions, materials, companies) == ScanMaterials(kind, company, materials, companies)
  {
    assert (map id | id in materials && materials[id].company in companies
                     && MeetsAll(materials[id], conditions) :: materials[id])
        == Kept(kind, company, materials, companies);
  }

  /** GET / as the handler runs it: the `WHERE` clause is assembled one
      condition at a time (a type outside the whitelist ends the request
      with 400), then the statement runs (one whose parameters the
      engine cannot read fails with 500) and its joined, filtered rows are
      sorted by name; the answer is the one `ListMaterials` specifies. */
  method SearchMaterials(kind: Option<string>, company: Option<Num>,
                         materials: map<int, Material>, companies: map<int, Company>)
    returns (r: Reply<seq<MaterialRow>>)
    ensures r == ListMaterials(kind, company, materials, companies)
  {
    var conditions: seq<Condition> := [];
    if kind.Some? && kind.value != [] {
      if !ValidType(kind.value) {
        return Failure(BadRequest(InvalidType));
      }
      MeetsAllSnoc(conditions, TypeIs(kind.value));
      AllLiteralSnoc(conditions, TypeIs(kind.value));
      conditions := conditions + [TypeIs(kind.value)];
    }
    assert forall m :: MeetsAll(m, conditions) <==> (kind.Some? && kind.value != [] ==> m.kind == kind.value);
    assert AllLiteral(conditions);
    if company.Some? {
      MeetsAllSnoc(conditions, CompanyIs(company.value));
      AllLiteralSnoc(conditions, CompanyIs(company.value));
      conditions := conditions + [CompanyIs(company.value)];
    }
    if !AllLiteral(conditions) {
      return Failure(ServerError);
    }
    ScanWhereIsScan(kind, company, conditions, materials, companies);
    Naming.ByNameIsTotalPreorder(ByName, (r: MaterialRow) => r.name);
    r := Success(OrderBy(ScanWhere(conditions, materials, companies), ByName));
  }

  /** GET /:id: the material joined with its company, or 404. */
  function GetMaterial(id: int, materials: map<int, Material>, companies: map<int, Company>)
    : (r: Reply<MaterialRow>)
    ensures r.Success? <==> id in materials && materials[id].company in companies
    ensures r.Failure? ==> r.status == NotFound
    ensures r.Success? ==> r.body == RowOf(id, materials[id], companies)
  {
    if id in materials && materials[id].company in companies then
      Success(RowOf(id, materials[id], companies))
    else
      Failure(NotFound)
  }

  /** The duplicate lookup of POST /: a material of that company already has
      the name under the collation. */
  predicate Duplicate(materials: map<int, Material>, name: string, company: int)
  {
    exists k :: k in materials && materials[k].company == company && SameName(materials[k].name, name)
  }

  /** No company supplies two materials of the same name. */
  predicate UniqueMaterials(materials: map<int, Material>)
  {
    forall i, j :: i in materials && j in materials && i != j ==>
      !(materials[i].company == materials[j].company && SameName(materials[i].name, materials[j].name))
  }

  /** Inserting a row into a store without duplicates keeps it without
      duplicates exactly when the lookup finds none for the row's name and
      company. */
  lemma DuplicateIffCollides(materials: map<int, Material>, id: int, m: Material)
    requires UniqueMaterials(materials) && id !in materials
    ensures UniqueMaterials(materials[id := m]) <==> !Duplicate(materials, m.name, m.company)
  {
    var after := materials[id := m];
    if Duplicate(materials, m.name, m.company) {
      var k :| k in materials && materials[k].company == m.company && SameName(materials[k].name, m.name);
      assert k in after && id in after && k != id && after[k] == materials[k] && after[id] == m;
    }
  }

  /** POST /: the checks run in order (blank name, type outside the
      whitelist, falsy company, unknown company: 400; the company already has
      a material of that name: 409), then one new row holding the trimmed
      name under the next id. A store without duplicates keeps none. */
  method CreateMaterial(db: Store, name: Input<string>, kind: Input<string>, company: Input<Num>)
    returns (st: Status, id: int)
    requires db.Valid()
    modifies db`materials, db`nextMaterial
    ensures db.Valid()
    ensures !Present(name) ==> st == BadRequest(NameRequired)
    ensures Present(name) && !(kind.Given? && ValidType(kind.value)) ==> st == BadRequest(InvalidType)
    ensures Present(name) && kind.Given? && ValidType(kind.value) ==>
              st == (if !Truthy(company) then BadRequest(CompanyRequired)
                     else if !Resolves(company, db.companies) then BadRequest(UnknownCompany)
                     else if Duplicate(old(db.materials), Trim(name.value), company.value.n) then Conflict
                     else Created)
    ensures st != Created ==> db.materials == old(db.materials) && db.nextMaterial == old(db.nextMaterial)
    ensures st == Created ==>
              && id == old(db.nextMaterial) && id !in old(db.materials)
              && db.materials == old(db.materials)[id := Material(Trim(name.value), kind.value, company.value.n)]
              && db.nextMaterial == id + 1
    ensures UniqueMaterials(old(db.materials)) ==> UniqueMaterials(db.materials)
  {
    id := 0;
    if !Present(name) {
      return BadRequest(NameRequired), id;
    }
    if !(kind.Given? && ValidType(kind.value)) {
      return BadRequest(InvalidType), id;
    }
    if !Truthy(company) {
      return BadRequest(CompanyRequired), id;
    }
    if !Resolves(company, db.companies) {
      return BadRequest(UnknownCompany), id;
    }
    var trimmed := Trim(name.value);
    var owner := company.value.n;
    if Duplicate(db.materials, trimmed, owner) {
      return Conflict, id;
    }
    id := db.nextMaterial;
    db.materials := db.materials[id := Material(trimmed, kind.value, owner)];
    db.nextMaterial := id + 1;
    st := Created;
  }

  /** The row PUT /:id stores: a non-blank name (trimmed), a non-empty type
      and a truthy company replace their columns; every other column keeps
      its value. */
  function Patched(m: Material, name: Input<string>, kind: Input<string>, company: Input<Num>): Material
    requires Truthy(company) ==> company.value.Int?
  {
    Material(if Present(name) then Trim(name.value) else m.name,
             if Filled(kind) then kind.value else m.kind,
             if Truthy(company) then company.value.n else m.company)
  }

  /** One `col = ?` item of the `SET` clause. */
  datatype Assignment = SetName(name: string) | SetKind(kind: string) | SetCompany(company: int)

  function Assign(m: Material, a: Assignment): Material
  {
    match a
    case SetName(v) => m.(name := v)
    case SetKind(v) => m.(kind := v)
    case SetCompany(v) => m.(company := v)
  }

  /** The `SET` clause of PUT /:id: one item per column to change, in the
      order name, type, company. It is empty exactly when there is nothing to
      update. */
  function Clause(name: Input<string>, kind: Input<string>, company: Input<Num>): (sets: seq<Assignment>)
    requires Truthy(company) ==> company.value.Int?
    ensures sets == [] <==> !Present(name) && !Filled(kind) && !Truthy(company)
  {
    (if Present(name) then [SetName(Trim(name.value))] else [])
    + (if Filled(kind) then [SetKind(kind.value)] else [])
    + (if Truthy(company) then [SetCompany(company.value.n)] else [])
  }

  /** Running the clause on a row stores the row `Patched` describes. */
  lemma {:induction false} ClauseRuns(m: Material, name: Input<string>, kind: Input<string>, company: Input<Num>)
    requires Truthy(company) ==> company.value.Int?
    ensures AssignAll(m, Clause(name, kind, company), Assign) == Patched(m, name, kind, company)
  {
    var a := if Present(name) then [SetName(Trim(name.value))] else [];
    var b := if Filled(kind) then [SetKind(kind.value)] else [];
    var c := if Truthy(company) then [SetCompany(company.value.n)] else [];
    AssignAllAppend(m, a + b, c, Assign);
    AssignAllAppend(m, a, b, Assign);
  }

  /** The `set` list of PUT /:id, grown with one push per column to change:
      it holds the clause above, so it is empty exactly when there is nothing
      to update, and running it on the stored `row` gives the patched row. */
  method SetClause(ghost row: Material, name: Input<string>, kind: Input<string>, company: Input<Num>)
    returns (sets: seq<Assignment>)
    requires Truthy(company) ==> company.value.Int?
    ensures sets == [] <==> !Present(name) && !Filled(kind) && !Truthy(company)
    ensures AssignAll(row, sets, Assign) == Patched(row, name, kind, company)
  {
    sets := [];
    if Present(name) {
      sets := sets + [SetName(Trim(name.value))];
    }
    if Filled(kind) {
      sets := sets + [SetKind(kind.value)];
    }
    if Truthy(company) {
      sets := sets + [SetCompany(company.value.n)];
    }
    assert sets == Clause(name, kind, company);
    ClauseRuns(row, name, kind, company);
  }

  /** PUT /:id: in order, a non-empty type outside the whitelist 400, an
      unknown material 404, a truthy but unknown company 400, no column to
      set 400; otherwise only that row changes, as `Patched` says, and the
      stored row is returned. */
  method UpdateMaterial(db: Store, id: int, name: Input<string>, kind: Input<string>, company: Input<Num>)
    returns (st: Status, row: Material)
    requires db.Valid()
    modifies db`materials
    ensures db.Valid()
    ensures Filled(kind) && !ValidType(kind.value) ==> st == BadRequest(InvalidType)
    ensures !(Filled(kind) && !ValidType(kind.value)) ==>
              st == (if id !in old(db.materials) then NotFound
                     else if Truthy(company) && !Resolves(company, db.companies) then BadRequest(UnknownCompany)
                     else if !Present(name) && !Filled(kind) && !Truthy(company) then BadRequest(NothingToUpdate)
                     else Ok)
    ensures st != Ok ==> db.materials == old(db.materials)
    ensures st == Ok ==>
              && db.materials == old(db.materials)[id := Patched(old(db.materials)[id], name, kind, company)]
              && row == db.materials[id]
  {
    row := Material([], [], 0);
    if Filled(kind) && !ValidType(kind.value) {
      return BadRequest(InvalidType), row;
    }
    if id !in db.materials {
      return NotFound, row;
    }
    if Truthy(company) && !Resolves(company, db.companies) {
      return BadRequest(UnknownCompany), row;
    }
    var sets := SetClause(db.materials[id], name, kind, company);
    if sets == [] {
      return BadRequest(NothingToUpdate), row;
    }
    var patched := AssignAll(db.materials[id], sets, Assign);
    db.materials := db.materials[id := patched];
    row := patched;
    st := Ok;
  }

  /** DELETE /:id: unknown id 404; a material some build still uses is kept
      by the foreign key (500); otherwise just that row goes. */
  method DeleteMaterial(db: Store, id: int) returns (st: Status)
    requires db.Valid()
    modifies db`materials
    ensures db.Valid()
    ensures id !in old(db.materials) ==> st == NotFound
    ensures id in old(db.materials) ==>
              st == (if exists p :: p in db.buildMaterials && p.1 == id then ServerError else NoContent)
    ensures st == NoContent ==> db.materials == old(db.materials) - {id}
    ensures st != NoContent ==> db.materials == old(db.materials)
  {
    if id !in db.materials {
      return NotFound;
    }
    if exists p :: p in db.buildMaterials && p.1 == id {
      return ServerError;
    }
    db.materials := db.materials - {id};
    st := NoContent;
  }
}
