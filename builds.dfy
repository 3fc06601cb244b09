/** The `/builds` resource: the pieces of furniture actually made from a
    model, and the materials each one consumed (`build_materials`). */
module Builds {
  import opened Base
  import opened Text
  import opened Collections
  import opened Tables
  import Naming

  // ---------------------------------------------------------------------
  // GET /

  /** A row of GET /: the build and the name of its model. */
  datatype BuildRow = BuildRow(id: int, model: int, reference: Option<string>, date: Option<int>,
                               destination: Option<string>, notes: Option<string>, modelName: string)

  function RowOf(id: int, b: Build, models: map<int, FurnitureModel>): BuildRow
    requires b.model in models
  {
    BuildRow(id, b.model, b.reference, b.date, b.destination, b.notes, models[b.model].name)
  }

  /** The model join and the `(? IS NULL OR furniture_model_id = ?)` filter
      of GET /. A missing or empty `model_id` is `None`; a finite one that is
      not an integer matches no build (a non-finite one makes the statement
      fail, see `ListBuilds`). */
  predicate Listed(model: Option<Num>, models: map<int, FurnitureModel>, b: Build)
  {
    b.model in models && (model.Some? ==> model.value == Int(b.model))
  }

  /** The builds the join and the filter keep. */
  function Kept(model: Option<Num>, builds: map<int, Build>, models: map<int, FurnitureModel>)
    : (bs: map<int, Build>)
    ensures forall id :: id in bs <==> id in builds && Listed(model, models, builds[id])
    ensures forall id :: id in bs ==> bs[id] == builds[id]
  {
    map id | id in builds && Listed(model, models, builds[id]) :: builds[id]
  }

  /** The kept rows in primary-key order. */
  function ScanBuilds(model: Option<Num>, builds: map<int, Build>, models: map<int, FurnitureModel>)
    : (scan: seq<BuildRow>)
    ensures forall i :: 0 <= i < |scan| ==>
              && scan[i].id in builds && Listed(model, models, builds[scan[i].id])
              && scan[i] == RowOf(scan[i].id, builds[scan[i].id], models)
    ensures forall i, j :: 0 <= i < j < |scan| ==> scan[i].id < scan[j].id
  {
    var bs := Kept(model, builds, models);
    var es := Entries(bs);
    EntriesSound(bs);
    seq(|es|, i requires 0 <= i < |es| => RowOf(es[i].0, es[i].1, models))
  }

  lemma {:induction false} ScanBuildsComplete(model: Option<Num>, builds: map<int, Build>,
                                              models: map<int, FurnitureModel>, id: int)
    requires id in builds && Listed(model, models, builds[id])
    ensures RowOf(id, builds[id], models) in ScanBuilds(model, builds, models)
  {
    var bs := Kept(model, builds, models);
    EntriesComplete(bs, id);
    var i :| 0 <= i < |Entries(bs)| && Entries(bs)[i] == (id, builds[id]);
    assert ScanBuilds(model, builds, models)[i] == RowOf(id, builds[id], models);
  }

  /** `ORDER BY date_creation DESC, id DESC`: later dates first, a `NULL`
      date below every date (so last), equal dates by descending id. */
  predicate Newer(a: BuildRow, b: BuildRow)
  {
    match (a.date, b.date)
    case (Some(x), Some(y)) => x > y || (x == y && a.id >= b.id)
    case (Some(_), None) => true
    case (None, Some(_)) => false
    case (None, None) => a.id >= b.id
  }

  /** Lets `NewestFirst` sort by `OrderBy`. The order is total, and it ties
      two rows only when they have the same date and the same id: rows of
      distinct builds come in one order. */
  lemma NewerIsTotalPreorder()
    ensures TotalPreorder(Newer)
    ensures forall a, b :: Newer(a, b) && Newer(b, a) ==> a.date == b.date && a.id == b.id
  {
  }

  /** The kept rows, each once, newest first. */
  function NewestFirst(model: Option<Num>, builds: map<int, Build>, models: map<int, FurnitureModel>)
    : (rows: seq<BuildRow>)
    ensures forall i :: 0 <= i < |rows| ==>
              && rows[i].id in builds && Listed(model, models, builds[rows[i].id])
              && rows[i] == RowOf(rows[i].id, builds[rows[i].id], models)
    ensures forall i, j :: 0 <= i < j < |rows| ==> rows[i].id != rows[j].id
    ensures forall i, j :: 0 <= i < j < |rows| ==> Newer(rows[i], rows[j])
  {
    var scan := ScanBuilds(model, builds, models);
    assert Distinct(scan);
    NewerIsTotalPreorder();
    var rows := OrderBy(scan, Newer);
    assert forall i :: 0 <= i < |rows| ==> rows[i] in scan;
    rows
  }

  /** GET /: a `model_id` that is not finite makes the statement fail (500);
      otherwise exactly the builds of the filtered model (every build when
      there is no filter), each once, joined with their model's name, newest
      first. */
  function ListBuilds(model: Option<Num>, builds: map<int, Build>, models: map<int, FurnitureModel>)
    : (r: Reply<seq<BuildRow>>)
    ensures r.Failure? <==> Unwritable(model)
    ensures r.Failure? ==> r.status == ServerError
    ensures r.Success? ==>
              && (forall i :: 0 <= i < |r.body| ==>
                    && r.body[i].id in builds && Listed(model, models, builds[r.body[i].id])
                    && r.body[i] == RowOf(r.body[i].id, builds[r.body[i].id], models))
              && (forall i, j :: 0 <= i < j < |r.body| ==> r.body[i].id != r.body[j].id)
              && (forall i, j :: 0 <= i < j < |r.body| ==> Newer(r.body[i], r.body[j]))
  {
    if Unwritable(model) then Failure(ServerError) else Success(NewestFirst(model, builds, models))
  }

  /** Every build the filter accepts is listed. */
  lemma {:induction false} ListBuildsComplete(model: Option<Num>, builds: map<int, Build>,
                                              models: map<int, FurnitureModel>, id: int)
    requires id in builds && Listed(model, models, builds[id])
    ensures RowOf(id, builds[id], models) in ListBuilds(model, builds, models).body
  {
    assert ListBuilds(model, builds, models).body == NewestFirst(model, builds, models);
    ScanBuildsComplete(model, builds, models, id);
    NewerIsTotalPreorder();
    OrderByComplete(ScanBuilds(model, builds, models), Newer, RowOf(id, builds[id], models));
  }

  /** In the listing a build without a date comes after every dated one,
      dates never increase, and equal dates list the higher id first. */
  lemma {:induction false} ListBuildsOrder(model: Option<Num>, builds: map<int, Build>,
                                           models: map<int, FurnitureModel>, i: int, j: int)
    requires !Unwritable(model)
    requires 0 <= i < j < |ListBuilds(model, builds, models).body|
    ensures var rows := ListBuilds(model, builds, models).body;
            && (rows[i].date.None? ==> rows[j].date.None?)
            && (rows[i].date.Some? && rows[j].date.Some? ==> rows[i].date.value >= rows[j].date.value)
            && (rows[i].date == rows[j].date ==> rows[i].id > rows[j].id)
  {
    var rows := ListBuilds(model, builds, models).body;
    assert Newer(rows[i], rows[j]);
    assert rows[i].id != rows[j].id;
  }

  // ---------------------------------------------------------------------
  // GET /:id

  /** A material line of the detail: the material and the line's payload. */
  datatype LineRow = LineRow(id: int, name: string, kind: string, company: int,
                             quantity: real, unit: string, costUnit: real)

  function LineRowOf(id: int, l: Line, materials: map<int, Material>): LineRow
    requires id in materials
  {
    LineRow(id, materials[id].name, materials[id].kind, materials[id].company, l.quantity, l.unit, l.costUnit)
  }

  /** The lines of `build` whose material resolves, keyed by material id. */
  function LinesOf(build: int, lines: map<(int, int), Line>, materials: map<int, Material>)
    : (ls: map<int, Line>)
    ensures forall mid :: mid in ls <==> (build, mid) in lines && mid in materials
    ensures forall mid :: mid in ls ==> ls[mid] == lines[(build, mid)]
  {
    var ls := map p | p in lines && p.0 == build && p.1 in materials :: p.1 := lines[p];
    assert forall mid :: (build, mid) in lines && mid in materials ==> mid in ls by {
      forall mid | (build, mid) in lines && mid in materials ensures mid in ls {
        var p := (build, mid);
        assert p.1 == mid;
      }
    }
    ls
  }

  predicate ByName(a: LineRow, b: LineRow)
  {
    NameLe(a.name, b.name)
  }

  /** The lines of `build`, in material-id order. */
  function ScanLines(build: int, lines: map<(int, int), Line>, materials: map<int, Material>)
    : (scan: seq<LineRow>)
    ensures forall i :: 0 <= i < |scan| ==>
              && (build, scan[i].id) in lines && scan[i].id in materials
              && scan[i] == LineRowOf(scan[i].id, lines[(build, scan[i].id)], materials)
    ensures forall i, j :: 0 <= i < j < |scan| ==> scan[i].id < scan[j].id
  {
    var ls := LinesOf(build, lines, materials);
    var es := Entries(ls);
    EntriesSound(ls);
    seq(|es|, i requires 0 <= i < |es| => LineRowOf(es[i].0, es[i].1, materials))
  }

  lemma {:induction false} ScanLinesComplete(build: int, lines: map<(int, int), Line>,
                                             materials: map<int, Material>, mid: int)
    requires (build, mid) in lines && mid in materials
    ensures LineRowOf(mid, lines[(build, mid)], materials) in ScanLines(build, lines, materials)
  {
    var ls := LinesOf(build, lines, materials);
    EntriesComplete(ls, mid);
    var i :| 0 <= i < |Entries(ls)| && Entries(ls)[i] == (mid, ls[mid]);
    assert ScanLines(build, lines, materials)[i] == LineRowOf(mid, lines[(build, mid)], materials);
  }

  /** The `materials` of GET /:id: the lines of that build joined with their
      material, each material once, ordered by material name. */
  function BuildLines(build: int, lines: map<(int, int), Line>, materials: map<int, Material>)
    : (rows: seq<LineRow>)
    ensures forall i :: 0 <= i < |rows| ==>
              && (build, rows[i].id) in lines && rows[i].id in materials
              && rows[i] == LineRowOf(rows[i].id, lines[(build, rows[i].id)], materials)
    ensures forall i, j :: 0 <= i < j < |rows| ==> rows[i].id != rows[j].id
    ensures forall i, j :: 0 <= i < j < |rows| ==> NameLe(rows[i].name, rows[j].name)
  {
    var scan := ScanLines(build, lines, materials);
    assert Distinct(scan);
    Naming.ByNameIsTotalPreorder(ByName, (r: LineRow) => r.name);
    var rows := OrderBy(scan, ByName);
    assert forall i :: 0 <= i < |rows| ==> rows[i] in scan;
    rows
  }

  /** Every line of the build whose material resolves is in the detail. */
  lemma {:induction false} BuildLinesComplete(build: int, lines: map<(int, int), Line>,
                                              materials: map<int, Material>, mid: int)
    requires (build, mid) in lines && mid in materials
    ensures LineRowOf(mid, lines[(build, mid)], materials) in BuildLines(build, lines, materials)
  {
    ScanLinesComplete(build, lines, materials, mid);
    Naming.ByNameIsTotalPreorder(ByName, (r: LineRow) => r.name);
    OrderByComplete(ScanLines(build, lines, materials), ByName, LineRowOf(mid, lines[(build, mid)], materials));
  }

  /** GET /:id: the build joined with its model and the model's category,
      and its material lines. */
  datatype BuildDetail = BuildDetail(id: int, model: int, reference: Option<string>, date: Option<int>,
                                     destination: Option<string>, notes: Option<string>,
                                     modelName: string, categoryId: int, category: string,
                                     materials: seq<LineRow>)

  /** The joins of GET /:id find the build, its model and its category. */
  predicate Found(id: int, builds: map<int, Build>, models: map<int, FurnitureModel>,
                  categories: map<int, Category>)
  {
    id in builds && builds[id].model in models && models[builds[id].model].category in categories
  }

  /** GET /:id: 404 unless the joins find the build; otherwise the build's
      columns, its model and category, and the lines `BuildLines` gives. */
  function GetBuild(id: int, builds: map<int, Build>, models: map<int, FurnitureModel>,
                    categories: map<int, Category>, materials: map<int, Material>,
                    lines: map<(int, int), Line>): (r: Reply<BuildDetail>)
    ensures r.Success? <==> Found(id, builds, models, categories)
    ensures r.Failure? ==> r.status == NotFound
    ensures r.Success? ==>
              && var b := builds[id];
              && r.body.id == id && r.body.model == b.model && r.body.reference == b.reference
              && r.body.date == b.date && r.body.destination == b.destination && r.body.notes == b.notes
              && r.body.modelName == models[b.model].name
              && r.body.categoryId == models[b.model].category
              && r.body.category == categories[models[b.model].category].name
              && r.body.materials == BuildLines(id, lines, materials)
  {
    if Found(id, builds, models, categories) then
      var b := builds[id];
      var m := models[b.model];
      Success(BuildDetail(id, b.model, b.reference, b.date, b.destination, b.notes,
                          m.name, m.category, categories[m.category].name,
                          BuildLines(id, lines, materials)))
    else
      Failure(NotFound)
  }

  /** In a consistent store the detail of an existing build is found, and
      its lines are exactly that build's lines. */
  lemma {:induction false} GetBuildOfValid(db: Store, id: int, mid: int)
    requires db.Valid() && id in db.builds
    ensures GetBuild(id, db.builds, db.models, db.categories, db.materials, db.buildMaterials).Success?
    ensures (id, mid) in db.buildMaterials ==>
              LineRowOf(mid, db.buildMaterials[(id, mid)], db.materials)
                in GetBuild(id, db.builds, db.models, db.categories, db.materials, db.buildMaterials).body.materials
  {
    if (id, mid) in db.buildMaterials {
      BuildLinesComplete(id, db.buildMaterials, db.materials, mid);
    }
  }

  // ---------------------------------------------------------------------
  // POST /

  /** POST /: a model id `Number.isInteger` rejects, then one no model has,
      are 400; otherwise one new build under the next id, every optional
      column missing from the body stored as `NULL`. */
  method CreateBuild(db: Store, model: Input<Num>, reference: Input<string>, date: Input<int>,
                     destination: Input<string>, notes: Input<string>)
    returns (st: Status, id: int)
    requires db.Valid()
    modifies db`builds, db`nextBuild
    ensures db.Valid()
    ensures st == (if !IsInteger(model) then BadRequest(InvalidModelId)
                   else if !Resolves(model, db.models) then BadRequest(UnknownModel)
                   else Created)
    ensures st != Created ==> db.builds == old(db.builds) && db.nextBuild == old(db.nextBuild)
    ensures st == Created ==>
              && id == old(db.nextBuild) && id !in old(db.builds)
              && db.builds == old(db.builds)[id := Build(model.value.n, OrNull(reference), OrNull(date),
                                                         OrNull(destination), OrNull(notes))]
              && db.nextBuild == id + 1
  {
    id := 0;
    if !IsInteger(model) {
      return BadRequest(InvalidModelId), id;
    }
    if !Resolves(model, db.models) {
      return BadRequest(UnknownModel), id;
    }
    id := db.nextBuild;
    db.builds := db.builds[id := Build(model.value.n, OrNull(reference), OrNull(date),
                                       OrNull(destination), OrNull(notes))];
    db.nextBuild := id + 1;
    st := Created;
  }

  // ---------------------------------------------------------------------
  // PUT /:id

  /** The body of PUT /:id defines no field. */
  predicate NoField(model: Input<Num>, reference: Input<string>, date: Input<int>,
                    destination: Input<string>, notes: Input<string>)
  {
    model.Absent? && reference.Absent? && date.Absent? && destination.Absent? && notes.Absent?
  }

  /** The row PUT /:id stores: every field the body defines replaces its
      column (`null` stores `NULL`); the others keep their values. The model
      id reaching the statement resolved, so it is an integer. */
  function Patched(b: Build, model: Input<Num>, reference: Input<string>, date: Input<int>,
                   destination: Input<string>, notes: Input<string>): Build
    requires !model.Absent? ==> SqlKey(model).Some?
  {
    Build(if model.Absent? then b.model else SqlKey(model).value,
          if reference.Absent? then b.reference else OrNull(reference),
          if date.Absent? then b.date else OrNull(date),
          if destination.Absent? then b.destination else OrNull(destination),
          if notes.Absent? then b.notes else OrNull(notes))
  }

  /** One `col = ?` item of the `SET` clause, with the value it binds. */
  datatype Assignment =
    | SetModel(model: Option<int>)
    | SetReference(reference: Option<string>)
    | SetDate(date: Option<int>)
    | SetDestination(destination: Option<string>)
    | SetNotes(notes: Option<string>)

  /** A `NULL` model id never reaches the statement: the model lookup
      refuses it first. */
  function Assign(b: Build, a: Assignment): Build
  {
    match a
    case SetModel(v) => if v.Some? then b.(model := v.value) else b
    case SetReference(v) => b.(reference := v)
    case SetDate(v) => b.(date := v)
    case SetDestination(v) => b.(destination := v)
    case SetNotes(v) => b.(notes := v)
  }

  function Item<T>(x: Input<T>, a: Assignment): seq<Assignment>
  {
    if x.Absent? then [] else [a]
  }

  /** The `SET` clause of PUT /:id: one item per field the body defines, in
      the order model, ref, date, destination, notes. It is empty exactly
      when the body defines none. */
  function Clause(model: Input<Num>, reference: Input<string>, date: Input<int>,
                  destination: Input<string>, notes: Input<string>): (sets: seq<Assignment>)
    ensures sets == [] <==> NoField(model, reference, date, destination, notes)
  {
    Item(model, SetModel(SqlKey(model))) + Item(reference, SetReference(OrNull(reference)))
    + Item(date, SetDate(OrNull(date))) + Item(destination, SetDestination(OrNull(destination)))
    + Item(notes, SetNotes(OrNull(notes)))
  }

  /** Running one more item of the clause applies it when its field is
      defined. */
  lemma {:induction false} RunItem<T>(b: Build, s: seq<Assignment>, x: Input<T>, a: Assignment)
    ensures AssignAll(b, s + Item(x, a), Assign)
            == if x.Absent? then AssignAll(b, s, Assign) else Assign(AssignAll(b, s, Assign), a)
  {
    if x.Absent? {
      assert s + Item(x, a) == s;
    } else {
      assert (s + [a])[..|s + [a]| - 1] == s;
    }
  }

  /** Running the clause on a row stores the row `Patched` describes. */
  lemma {:induction false} ClauseRuns(b: Build, model: Input<Num>, reference: Input<string>, date: Input<int>,
                                      destination: Input<string>, notes: Input<string>)
    requires !model.Absent? ==> SqlKey(model).Some?
    ensures AssignAll(b, Clause(model, reference, date, destination, notes), Assign)
            == Patched(b, model, reference, date, destination, notes)
  {
    var a1 := Item(model, SetModel(SqlKey(model)));
    var a2 := Item(reference, SetReference(OrNull(reference)));
    var a3 := Item(date, SetDate(OrNull(date)));
    var a4 := Item(destination, SetDestination(OrNull(destination)));
    RunItem(b, [], model, SetModel(SqlKey(model)));
    assert [] + a1 == a1;
    RunItem(b, a1, reference, SetReference(OrNull(reference)));
    RunItem(b, a1 + a2, date, SetDate(OrNull(date)));
    RunItem(b, a1 + a2 + a3, destination, SetDestination(OrNull(destination)));
    RunItem(b, a1 + a2 + a3 + a4, notes, SetNotes(OrNull(notes)));
  }

  /** The `fields` list of PUT /:id, one push per defined field: it holds
      the clause above, so it is empty exactly when the body defines no
      field, and once the model id is known to resolve, running it on any
      row gives the patched row. */
  method SetClause(model: Input<Num>, reference: Input<string>, date: Input<int>,
                   destination: Input<string>, notes: Input<string>)
    returns (sets: seq<Assignment>)
    ensures sets == [] <==> NoField(model, reference, date, destination, notes)
    ensures (!model.Absent? ==> SqlKey(model).Some?) ==>
              forall b :: AssignAll(b, sets, Assign) == Patched(b, model, reference, date, destination, notes)
  {
    ghost var a1 := Item(model, SetModel(SqlKey(model)));
    ghost var a2 := Item(reference, SetReference(OrNull(reference)));
    ghost var a3 := Item(date, SetDate(OrNull(date)));
    ghost var a4 := Item(destination, SetDestination(OrNull(destination)));
    sets := [];
    if !model.Absent? {
      sets := sets + [SetModel(SqlKey(model))];
    }
    assert sets == a1;
    if !reference.Absent? {
      sets := sets + [SetReference(OrNull(reference))];
    }
    assert sets == a1 + a2;
    if !date.Absent? {
      sets := sets + [SetDate(OrNull(date))];
    }
    assert sets == a1 + a2 + a3;
    if !destination.Absent? {
      sets := sets + [SetDestination(OrNull(destination))];
    }
    assert sets == a1 + a2 + a3 + a4;
    if !notes.Absent? {
      sets := sets + [SetNotes(OrNull(notes))];
    }
    assert sets == Clause(model, reference, date, destination, notes);
    if !model.Absent? ==> SqlKey(model).Some? {
      forall b ensures AssignAll(b, sets, Assign) == Patched(b, model, reference, date, destination, notes) {
        ClauseRuns(b, model, reference, date, destination, notes);
      }
    }
  }

  /** PUT /:id: in order, a defined model id `Number.isInteger` rejects is
      400; a body defining no field is 200 without looking the build up;
      then an unknown build 404 and a defined but unknown model 400;
      otherwise only the defined fields of that row change. */
  method UpdateBuild(db: Store, id: int, model: Input<Num>, reference: Input<string>, date: Input<int>,
                     destination: Input<string>, notes: Input<string>) returns (st: Status)
    requires db.Valid()
    modifies db`builds
    ensures db.Valid()
    ensures st == (if !model.Absent? && !IsInteger(model) then BadRequest(InvalidModelId)
                   else if NoField(model, reference, date, destination, notes) then Ok
                   else if id !in old(db.builds) then NotFound
                   else if !model.Absent? && !Resolves(model, db.models) then BadRequest(UnknownModel)
                   else Ok)
    ensures st != Ok || NoField(model, reference, date, destination, notes) ==> db.builds == old(db.builds)
    ensures st == Ok && !NoField(model, reference, date, destination, notes) ==>
              db.builds == old(db.builds)[id := Patched(old(db.builds)[id], model, reference, date,
                                                        destination, notes)]
  {
    if !model.Absent? && !IsInteger(model) {
      return BadRequest(InvalidModelId);
    }
    var sets := SetClause(model, reference, date, destination, notes);
    if sets == [] {
      return Ok;
    }
    if id !in db.builds {
      return NotFound;
    }
    if !model.Absent? && !Resolves(model, db.models) {
      return BadRequest(UnknownModel);
    }
    db.builds := db.builds[id := AssignAll(db.builds[id], sets, Assign)];
    st := Ok;
  }

  // ---------------------------------------------------------------------
  // DELETE /:id

  /** DELETE /:id: no row removed is 404; otherwise the build goes and the
      foreign key cascades to its material lines. */
  method DeleteBuild(db: Store, id: int) returns (st: Status)
    requires db.Valid()
    modifies db`builds, db`buildMaterials
    ensures db.Valid()
    ensures st == (if id in old(db.builds) then NoContent else NotFound)
    ensures st == NotFound ==> db.builds == old(db.builds) && db.buildMaterials == old(db.buildMaterials)
    ensures st == NoContent ==>
              && db.builds == old(db.builds) - {id}
              && db.buildMaterials == LinesOfBuilds(old(db.buildMaterials), db.builds)
  {
    if id !in db.builds {
      return NotFound;
    }
    var builds := db.builds - {id};
    db.builds, db.buildMaterials := builds, LinesOfBuilds(db.buildMaterials, builds);
    st := NoContent;
  }

  // ---------------------------------------------------------------------
  // POST /:id/materials

  /** `INSERT ... ON DUPLICATE KEY UPDATE` on the key (build, material): the
      pair holds the new payload afterwards, whether or not it had a row. */
  function Upsert(lines: map<(int, int), Line>, build: int, material: int, l: Line)
    : (r: map<(int, int), Line>)
    ensures (build, material) in r && r[(build, material)] == l
    ensures forall p :: p != (build, material) ==> (p in r <==> p in lines)
    ensures forall p :: p in lines && p != (build, material) ==> r[p] == lines[p]
    ensures |r| == if (build, material) in lines then |lines| else |lines| + 1
  {
    lines[(build, material) := l]
  }

  /** Repeating the same call changes nothing more. */
  lemma UpsertIdempotent(lines: map<(int, int), Line>, build: int, material: int, l: Line)
    ensures Upsert(Upsert(lines, build, material, l), build, material, l) == Upsert(lines, build, material, l)
  {
  }

  /** Of two calls on the same pair the later one wins. */
  lemma UpsertLatestWins(lines: map<(int, int), Line>, build: int, material: int, l1: Line, l2: Line)
    ensures Upsert(Upsert(lines, build, material, l1), build, material, l2) == Upsert(lines, build, material, l2)
  {
  }

  /** A missing field takes its default: quantity 0, unit "u", cost 0. */
  function OrDefault<T>(x: Option<T>, d: T): (v: T)
    ensures x.Some? ==> v == x.value
    ensures x.None? ==> v == d
  {
    if x.Some? then x.value else d
  }

  /** POST /:id/materials: in order, a material id `Number.isInteger`
      rejects 400, an unknown build 404, an unknown material 400; otherwise
      the line of (build, material) is inserted or overwritten with the
      given payload, missing fields taking their defaults, and the stored
      payload is returned. */
  method AddMaterial(db: Store, build: int, material: Input<Num>, quantity: Option<real>,
                     unit: Option<string>, costUnit: Option<real>) returns (st: Status, line: Line)
    requires db.Valid()
    modifies db`buildMaterials
    ensures db.Valid()
    ensures st == (if !IsInteger(material) then BadRequest(InvalidMaterialId)
                   else if build !in db.builds then NotFound
                   else if !Resolves(material, db.materials) then BadRequest(UnknownMaterial)
                   else Created)
    ensures st != Created ==> db.buildMaterials == old(db.buildMaterials)
    ensures st == Created ==>
              && line == Line(OrDefault(quantity, 0.0), OrDefault(unit, "u"), OrDefault(costUnit, 0.0))
              && db.buildMaterials == Upsert(old(db.buildMaterials), build, material.value.n, line)
  {
    line := Line(OrDefault(quantity, 0.0), OrDefault(unit, "u"), OrDefault(costUnit, 0.0));
    if !IsInteger(material) {
      return BadRequest(InvalidMaterialId), line;
    }
    if build !in db.builds {
      return NotFound, line;
    }
    if !Resolves(material, db.materials) {
      return BadRequest(UnknownMaterial), line;
    }
    db.buildMaterials := Upsert(db.buildMaterials, build, material.value.n, line);
    st := Created;
  }
}
