/** The `/furniture_models` resource: the furniture designs, each in one
    category, with the number of builds made from each. */
module FurnitureModels {
  import opened Base
  import opened Text
  import opened Collections
  import opened Tables
  import Naming

  /** The number of builds made from model `id` (`COUNT(b.id)` over the left
      join). */
  function BuildsCount(builds: map<int, Build>, id: int): (n: nat)
    ensures n == 0 <==> forall b :: b in builds ==> builds[b].model != id
  {
    var made := set b | b in builds && builds[b].model == id;
    assert |made| == 0 <==> forall b :: b in builds ==> builds[b].model != id by {
      if forall b :: b in builds ==> builds[b].model != id {
        assert made == {};
      } else {
        var b :| b in builds && builds[b].model == id;
        assert b in made;
      }
    }
    |made|
  }

  /** A row of GET /: the model, its category, and how many builds use it. */
  datatype ModelRow = ModelRow(id: int, name: string, description: Option<string>,
                               categoryId: int, category: string, builds: nat)

  /** A row of GET /:id: the model and its category. */
  datatype ModelDetail = ModelDetail(id: int, name: string, description: Option<string>,
                                     categoryId: int, category: string)

  function RowOf(id: int, m: FurnitureModel, categories: map<int, Category>, builds: map<int, Build>): ModelRow
    requires m.category in categories
  {
    ModelRow(id, m.name, m.description, m.category, categories[m.category].name, BuildsCount(builds, id))
  }

  /** The models whose category resolves: the inner join of GET /. */
  function Joined(models: map<int, FurnitureModel>, categories: map<int, Category>)
    : (ms: map<int, FurnitureModel>)
    ensures forall id :: id in ms <==> id in models && models[id].category in categories
    ensures forall id :: id in ms ==> ms[id] == models[id]
  {
    map id | id in models && models[id].category in categories :: models[id]
  }

  /** The joined rows in primary-key order. */
  function ScanModels(models: map<int, FurnitureModel>, categories: map<int, Category>,
                      builds: map<int, Build>): (scan: seq<ModelRow>)
    ensures forall i :: 0 <= i < |scan| ==>
              && scan[i].id in models && models[scan[i].id].category in categories
              && scan[i] == RowOf(scan[i].id, models[scan[i].id], categories, builds)
    ensures forall i, j :: 0 <= i < j < |scan| ==> scan[i].id < scan[j].id
  {
    var ms := Joined(models, categories);
    var es := Entries(ms);
    EntriesSound(ms);
    seq(|es|, i requires 0 <= i < |es| => RowOf(es[i].0, es[i].1, categories, builds))
  }

  lemma {:induction false} ScanModelsComplete(models: map<int, FurnitureModel>, categories: map<int, Category>,
                                              builds: map<int, Build>, id: int)
    requires id in models && models[id].category in categories
    ensures RowOf(id, models[id], categories, builds) in ScanModels(models, categories, builds)
  {
    var ms := Joined(models, categories);
    EntriesComplete(ms, id);
    var i :| 0 <= i < |Entries(ms)| && Entries(ms)[i] == (id, models[id]);
    assert ScanModels(models, categories, builds)[i] == RowOf(id, models[id], categories, builds);
  }

  predicate ByName(a: ModelRow, b: ModelRow)
  {
    NameLe(a.name, b.name)
  }

  /** GET /: every model whose category resolves, once, with its category's
      name and its build count, ordered by name. */
  function ListModels(models: map<int, FurnitureModel>, categories: map<int, Category>,
                      builds: map<int, Build>): (rows: seq<ModelRow>)
    ensures forall i :: 0 <= i < |rows| ==>
              && rows[i].id in models && models[rows[i].id].category in categories
              && rows[i] == RowOf(rows[i].id, models[rows[i].id], categories, builds)
    ensures forall i, j :: 0 <= i < j < |rows| ==> rows[i].id != rows[j].id
    ensures forall i, j :: 0 <= i < j < |rows| ==> NameLe(rows[i].name, rows[j].name)
  {
    var scan := ScanModels(models, categories, builds);
    assert Distinct(scan);
    Naming.ByNameIsTotalPreorder(ByName, (r: ModelRow) => r.name);
    var rows := OrderBy(scan, ByName);
    assert forall i :: 0 <= i < |rows| ==> rows[i] in scan;
    rows
  }

  /** Every model whose category resolves is listed; under the foreign keys
      that is every model. */
  lemma {:induction false} ListModelsComplete(models: map<int, FurnitureModel>, categories: map<int, Category>,
                                              builds: map<int, Build>, id: int)
    requires id in models && models[id].category in categories
    ensures RowOf(id, models[id], categories, builds) in ListModels(models, categories, builds)
  {
    ScanModelsComplete(models, categories, builds, id);
    Naming.ByNameIsTotalPreorder(ByName, (r: ModelRow) => r.name);
    OrderByComplete(ScanModels(models, categories, builds), ByName, RowOf(id, models[id], categories, builds));
  }

  /** GET /:id: the model joined with its category, or 404. */
  function GetModel(id: int, models: map<int, FurnitureModel>, categories: map<int, Category>)
    : (r: Reply<ModelDetail>)
    ensures r.Success? <==> id in models && models[id].category in categories
    ensures r.Failure? ==> r.status == NotFound
    ensures r.Success? ==>
              && r.body.id == id && r.body.name == models[id].name
              && r.body.description == models[id].description
              && r.body.categoryId == models[id].category
              && r.body.category == categories[models[id].category].name
  {
    if id in models && models[id].category in categories then
      var m := models[id];
      Success(ModelDetail(id, m.name, m.description, m.category, categories[m.category].name))
    else
      Failure(NotFound)
  }

  /** POST /: in order, a blank name, a category id `Number.isInteger`
      rejects, and an unknown category are 400; otherwise one new row with
      the trimmed name, the description or `NULL`, and the category. */
  method CreateModel(db: Store, name: Input<string>, description: Input<string>, category: Input<Num>)
    returns (st: Status, id: int)
    requires db.Valid()
    modifies db`models, db`nextModel
    ensures db.Valid()
    ensures st == (if !Present(name) then BadRequest(NameRequired)
                   else if !IsInteger(category) then BadRequest(InvalidCategoryId)
                   else if !Resolves(category, db.categories) then BadRequest(UnknownCategory)
                   else Created)
    ensures st != Created ==> db.models == old(db.models) && db.nextModel == old(db.nextModel)
    ensures st == Created ==>
              && id == old(db.nextModel) && id !in old(db.models)
              && db.models == old(db.models)[id := FurnitureModel(Trim(name.value), OrNull(description),
                                                                  category.value.n)]
              && db.nextModel == id + 1
  {
    id := 0;
    if !Present(name) {
      return BadRequest(NameRequired), id;
    }
    if !IsInteger(category) {
      return BadRequest(InvalidCategoryId), id;
    }
    if !Resolves(category, db.categories) {
      return BadRequest(UnknownCategory), id;
    }
    id := db.nextModel;
    db.models := db.models[id := FurnitureModel(Trim(name.value), OrNull(description), category.value.n)];
    db.nextModel := id + 1;
    st := Created;
  }

  /** The row PUT /:id stores: every field the body defines replaces its
      column (the name trimmed, the description or `NULL`); the others keep
      their values. */
  function Patched(m: FurnitureModel, name: Input<string>, description: Input<string>,
                   category: Input<Num>): FurnitureModel
    requires category.Given? ==> category.value.Int?
  {
    FurnitureModel(if name.Given? then Trim(name.value) else m.name,
                   if description.Absent? then m.description else OrNull(description),
                   if category.Given? then category.value.n else m.category)
  }

  /** One `col = ?` item of the `SET` clause. */
  datatype Assignment =
    | SetName(name: string)
    | SetDescription(description: Option<string>)
    | SetCategory(category: int)

  function Assign(m: FurnitureModel, a: Assignment): FurnitureModel
  {
    match a
    case SetName(v) => m.(name := v)
    case SetDescription(v) => m.(description := v)
    case SetCategory(v) => m.(category := v)
  }

  /** The `SET` clause of PUT /:id: one item per field the body defines, in
      the order name, description, category. It is empty exactly when the
      body defines none. */
  function Clause(name: Input<string>, description: Input<string>, category: Input<Num>)
    : (sets: seq<Assignment>)
    requires !name.Absent? ==> name.Given?
    requires !category.Absent? ==> category.Given? && category.value.Int?
    ensures sets == [] <==> name.Absent? && description.Absent? && category.Absent?
  {
    (if !name.Absent? then [SetName(Trim(name.value))] else [])
    + (if !description.Absent? then [SetDescription(OrNull(description))] else [])
    + (if !category.Absent? then [SetCategory(category.value.n)] else [])
  }

  /** Running the clause on a row stores the row `Patched` describes. */
  lemma {:induction false} ClauseRuns(m: FurnitureModel, name: Input<string>, description: Input<string>,
                                      category: Input<Num>)
    requires !name.Absent? ==> name.Given?
    requires !category.Absent? ==> category.Given? && category.value.Int?
    ensures AssignAll(m, Clause(name, description, category), Assign) == Patched(m, name, description, category)
  {
    var a := if !name.Absent? then [SetName(Trim(name.value))] else [];
    var b := if !description.Absent? then [SetDescription(OrNull(description))] else [];
    var c := if !category.Absent? then [SetCategory(category.value.n)] else [];
    AssignAllAppend(m, a + b, c, Assign);
    AssignAllAppend(m, a, b, Assign);
  }

  /** The `fields` list of PUT /:id, one push per defined field: it holds
      the clause above, so it is empty exactly when the body defines no
      field, and running it on the stored `row` gives the patched row. A
      category reaching this point resolved, so it is an integer. */
  method SetClause(ghost row: FurnitureModel, name: Input<string>, description: Input<string>,
                   category: Input<Num>)
    returns (sets: seq<Assignment>)
    requires !name.Absent? ==> name.Given?
    requires !category.Absent? ==> category.Given? && category.value.Int?
    ensures sets == [] <==> name.Absent? && description.Absent? && category.Absent?
    ensures AssignAll(row, sets, Assign) == Patched(row, name, description, category)
  {
    sets := [];
    if !name.Absent? {
      sets := sets + [SetName(Trim(name.value))];
    }
    if !description.Absent? {
      sets := sets + [SetDescription(OrNull(description))];
    }
    if !category.Absent? {
      sets := sets + [SetCategory(category.value.n)];
    }
    assert sets == Clause(name, description, category);
    ClauseRuns(row, name, description, category);
  }

  /** PUT /:id: in order, a defined name that is blank or `null` and a
      defined category id `Number.isInteger` rejects are 400, both before the
      existence check; then an unknown model 404 and a defined but unknown
      category 400; otherwise only the defined fields of that row change,
      and the answer is 200 even when no field was defined. */
  method UpdateModel(db: Store, id: int, name: Input<string>, description: Input<string>,
                     category: Input<Num>) returns (st: Status)
    requires db.Valid()
    modifies db`models
    ensures db.Valid()
    ensures st == (if !name.Absent? && !Present(name) then BadRequest(InvalidName)
                   else if !category.Absent? && !IsInteger(category) then BadRequest(InvalidCategoryId)
                   else if id !in old(db.models) then NotFound
                   else if !category.Absent? && !Resolves(category, db.categories) then BadRequest(UnknownCategory)
                   else Ok)
    ensures st != Ok ==> db.models == old(db.models)
    ensures st == Ok ==>
              db.models == old(db.models)[id := Patched(old(db.models)[id], name, description, category)]
  {
    if !name.Absent? && !Present(name) {
      return BadRequest(InvalidName);
    }
    if !category.Absent? && !IsInteger(category) {
      return BadRequest(InvalidCategoryId);
    }
    if id !in db.models {
      return NotFound;
    }
    if !category.Absent? && !Resolves(category, db.categories) {
      return BadRequest(UnknownCategory);
    }
    var sets := SetClause(db.models[id], name, description, category);
    if sets != [] {
      db.models := db.models[id := AssignAll(db.models[id], sets, Assign)];
    }
    st := Ok;
  }

  /** The cascade of deleting model `id` leaves every reference resolving. */
  lemma CascadeKeepsReferences(db: Store, id: int)
    requires db.Valid()
    ensures ModelsRefCategories(db.models - {id}, db.categories)
    ensures BuildsRefModels(BuildsNotOf(db.builds, id), db.models - {id})
    ensures LinesRef(LinesOfBuilds(db.buildMaterials, BuildsNotOf(db.builds, id)),
                     BuildsNotOf(db.builds, id), db.materials)
    ensures TagLinksRef(LinksNotOf(db.furnitureTags, id), db.models - {id}, db.tags)
  {
  }

  /** DELETE /:id: an unknown model is 404; otherwise the model goes, and the
      foreign keys cascade to the builds made from it, to their material
      lines, and to the model's tag links; everything else is kept. */
  method DeleteModel(db: Store, id: int) returns (st: Status)
    requires db.Valid()
    modifies db`models, db`builds, db`buildMaterials, db`furnitureTags
    ensures db.Valid()
    ensures st == (if id in old(db.models) then NoContent else NotFound)
    ensures st == NotFound ==>
              && db.models == old(db.models) && db.builds == old(db.builds)
              && db.buildMaterials == old(db.buildMaterials) && db.furnitureTags == old(db.furnitureTags)
    ensures st == NoContent ==>
              && db.models == old(db.models) - {id}
              && db.builds == BuildsNotOf(old(db.builds), id)
              && db.buildMaterials == LinesOfBuilds(old(db.buildMaterials), db.builds)
              && db.furnitureTags == LinksNotOf(old(db.furnitureTags), id)
  {
    if id !in db.models {
      return NotFound;
    }
    CascadeKeepsReferences(db, id);
    var builds := BuildsNotOf(db.builds, id);
    db.models, db.builds, db.buildMaterials, db.furnitureTags
      := db.models - {id}, builds, LinesOfBuilds(db.buildMaterials, builds), LinksNotOf(db.furnitureTags, id);
    st := NoContent;
  }
}
