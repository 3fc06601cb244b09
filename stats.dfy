/** The `/stats` resource: read-only aggregates over the tables for the
    dashboard. Every statistic is a function of the tables, so none of them
    changes anything. */
module Stats {
  import opened Base
  import opened Collections
  import opened Tables

  // ---------------------------------------------------------------------
  // GET /global

  datatype Counts = Counts(models: nat, builds: nat, materials: nat, categories: nat)

  /** GET /global: the number of rows of four tables. */
  function GlobalCounts(models: map<int, FurnitureModel>, builds: map<int, Build>,
                        materials: map<int, Material>, categories: map<int, Category>): (c: Counts)
    ensures c.models == |models| && c.builds == |builds|
    ensures c.materials == |materials| && c.categories == |categories|
  {
    Counts(|models|, |builds|, |materials|, |categories|)
  }

  // ---------------------------------------------------------------------
  // Quantities of the build_materials rows

  /** The primary key of a `build_materials` row and its payload. */
  type Entry = ((int, int), Line)

  function EntryMaterial(e: Entry): int { e.0.1 }
  function EntryQuantity(e: Entry): real { e.1.quantity }

  /** `SUM(bm.quantity)` over the rows of material `mid`. */
  function MaterialTotal(lines: map<(int, int), Line>, mid: int): real
  {
    GroupSum(PairEntries(lines), EntryQuantity, EntryMaterial, mid)
  }

  /** `SUM(bm.quantity)` over every row. */
  function AllQuantities(lines: map<(int, int), Line>): real
  {
    Sum(PairEntries(lines), EntryQuantity)
  }

  // ---------------------------------------------------------------------
  // GET /materials/top

  /** A row of GET /materials/top: the material (`mat.id` is its group) and
      its summed quantity. */
  datatype TopRow = TopRow(id: int, name: string, kind: string, total: real)

  function TopRowOf(mid: int, lines: map<(int, int), Line>, materials: map<int, Material>): TopRow
    requires mid in materials
  {
    TopRow(mid, materials[mid].name, materials[mid].kind, MaterialTotal(lines, mid))
  }

  /** Some build uses material `mid`. */
  ghost predicate UsedIn(lines: map<(int, int), Line>, mid: int)
  {
    exists b :: (b, mid) in lines
  }

  /** The groups of the join `build_materials JOIN materials`: the materials
      some build uses. */
  function Used(lines: map<(int, int), Line>, materials: map<int, Material>): (ms: map<int, Material>)
    ensures forall mid :: mid in ms <==> mid in materials && UsedIn(lines, mid)
    ensures forall mid :: mid in ms ==> ms[mid] == materials[mid]
  {
    var used := set p | p in lines && p.1 in materials :: p.1;
    assert forall mid :: mid in used <==> mid in materials && UsedIn(lines, mid) by {
      forall mid | mid in materials && UsedIn(lines, mid) ensures mid in used {
        var b :| (b, mid) in lines;
        var p := (b, mid);
        assert p.1 == mid;
      }
      forall mid | mid in used ensures UsedIn(lines, mid) {
        var p :| p in lines && p.1 in materials && p.1 == mid;
        var b := p.0;
        assert (b, mid) == p;
        assert (b, mid) in lines;
      }
    }
    map mid | mid in used :: materials[mid]
  }

  /** The groups, one row each, in primary-key order. */
  function ScanTop(lines: map<(int, int), Line>, materials: map<int, Material>): (scan: seq<TopRow>)
    ensures |scan| == |Used(lines, materials)|
    ensures forall i :: 0 <= i < |scan| ==>
              && scan[i].id in materials && UsedIn(lines, scan[i].id)
              && scan[i] == TopRowOf(scan[i].id, lines, materials)
    ensures forall i, j :: 0 <= i < j < |scan| ==> scan[i].id < scan[j].id
  {
    var ms := Used(lines, materials);
    var es := Entries(ms);
    EntriesSound(ms);
    seq(|es|, i requires 0 <= i < |es| => TopRowOf(es[i].0, lines, materials))
  }

  lemma {:induction false} ScanTopComplete(lines: map<(int, int), Line>, materials: map<int, Material>,
                                           mid: int)
    requires mid in materials && UsedIn(lines, mid)
    ensures TopRowOf(mid, lines, materials) in ScanTop(lines, materials)
  {
    var ms := Used(lines, materials);
    EntriesComplete(ms, mid);
    var i :| 0 <= i < |Entries(ms)| && Entries(ms)[i] == (mid, ms[mid]);
    assert ScanTop(lines, materials)[i] == TopRowOf(mid, lines, materials);
  }

  /** `ORDER BY total_qty DESC`; the engine orders ties as it likes. */
  predicate MoreUsed(a: TopRow, b: TopRow)
  {
    a.total >= b.total
  }

  /** Lets `RankMaterials` sort by `OrderBy`. */
  lemma MoreUsedIsTotalPreorder()
    ensures TotalPreorder(MoreUsed)
  {
  }

  /** Every used material once, with its summed quantity, largest total
      first. */
  function RankMaterials(lines: map<(int, int), Line>, materials: map<int, Material>): (rows: seq<TopRow>)
    ensures |rows| == |Used(lines, materials)|
    ensures forall i :: 0 <= i < |rows| ==>
              && rows[i].id in materials && UsedIn(lines, rows[i].id)
              && rows[i] == TopRowOf(rows[i].id, lines, materials)
    ensures forall i, j :: 0 <= i < j < |rows| ==> rows[i].id != rows[j].id
    ensures forall i, j :: 0 <= i < j < |rows| ==> rows[i].total >= rows[j].total
  {
    var scan := ScanTop(lines, materials);
    assert Distinct(scan);
    MoreUsedIsTotalPreorder();
    var rows := OrderBy(scan, MoreUsed);
    assert forall i :: 0 <= i < |rows| ==> rows[i] in scan;
    assert forall i, j :: 0 <= i < j < |rows| ==> MoreUsed(rows[i], rows[j]);
    rows
  }

  lemma {:induction false} RankMaterialsComplete(lines: map<(int, int), Line>, materials: map<int, Material>,
                                                 mid: int)
    requires mid in materials && UsedIn(lines, mid)
    ensures TopRowOf(mid, lines, materials) in RankMaterials(lines, materials)
  {
    ScanTopComplete(lines, materials, mid);
    MoreUsedIsTotalPreorder();
    OrderByComplete(ScanTop(lines, materials), MoreUsed, TopRowOf(mid, lines, materials));
  }

  /** `LIMIT ?` with `Number(req.query.limit ?? 7)`: 7 when the parameter
      is missing; a value that is not a non-negative integer is refused by
      the engine. */
  function Limit(limit: Option<Num>): (n: Option<nat>)
    ensures limit.None? ==> n == Some(7)
    ensures limit.Some? ==> (n.Some? <==> limit.value.Int? && limit.value.n >= 0)
    ensures limit.Some? && n.Some? ==> n.value == limit.value.n
  {
    match limit
    case None => Some(7)
    case Some(Int(k)) => if k >= 0 then Some(k) else None
    case Some(_) => None
  }

  /** The first `n` rows of the ranking. */
  function Top(n: nat, lines: map<(int, int), Line>, materials: map<int, Material>): (rows: seq<TopRow>)
    ensures |rows| == if n < |Used(lines, materials)| then n else |Used(lines, materials)|
    ensures forall i :: 0 <= i < |rows| ==>
              && rows[i].id in materials && UsedIn(lines, rows[i].id)
              && rows[i] == TopRowOf(rows[i].id, lines, materials)
    ensures forall i, j :: 0 <= i < j < |rows| ==> rows[i].id != rows[j].id
    ensures forall i, j :: 0 <= i < j < |rows| ==> rows[i].total >= rows[j].total
  {
    var ranked := RankMaterials(lines, materials);
    var rows := Take(ranked, n);
    assert forall i :: 0 <= i < |rows| ==> rows[i] == ranked[i];
    rows
  }

  /** The rows kept are the top ones: a used material left out has a total
      no larger than any kept one, and none is left out when `n` covers
      them all. */
  lemma {:induction false} TopAreTop(n: nat, lines: map<(int, int), Line>, materials: map<int, Material>,
                                     mid: int)
    requires mid in materials && UsedIn(lines, mid)
    ensures TopRowOf(mid, lines, materials) !in Top(n, lines, materials) ==>
              && n < |Used(lines, materials)|
              && forall i :: 0 <= i < |Top(n, lines, materials)| ==>
                   Top(n, lines, materials)[i].total >= MaterialTotal(lines, mid)
  {
    var ranked := RankMaterials(lines, materials);
    var top := Top(n, lines, materials);
    assert top == Take(ranked, n);
    RankMaterialsComplete(lines, materials, mid);
    var k :| 0 <= k < |ranked| && ranked[k] == TopRowOf(mid, lines, materials);
    if k < n {
      assert top[k] == ranked[k];
    } else {
      forall i | 0 <= i < |top| ensures top[i].total >= MaterialTotal(lines, mid) {
        assert top[i] == ranked[i];
      }
    }
  }

  /** GET /materials/top: the top `limit` (7 by default) used materials
      with their summed quantities; a limit the engine refuses is 500. */
  function TopMaterials(limit: Option<Num>, lines: map<(int, int), Line>, materials: map<int, Material>)
    : (r: Reply<seq<TopRow>>)
    ensures r.Failure? <==> Limit(limit).None?
    ensures r.Failure? ==> r.status == ServerError
    ensures r.Success? ==> r.body == Top(Limit(limit).value, lines, materials)
  {
    match Limit(limit)
    case None => Failure(ServerError)
    case Some(n) => Success(Top(n, lines, materials))
  }

  // ---------------------------------------------------------------------
  // GET /companies

  /** A `build_materials` row after the joins of GET /companies: the
      company of its material, and its quantity. */
  datatype Share = Share(company: int, quantity: real)

  function ShareCompany(s: Share): int { s.company }
  function ShareQuantity(s: Share): real { s.quantity }

  /** The row joins its material and that material's company. */
  predicate Joins(e: Entry, materials: map<int, Material>, companies: map<int, Company>)
  {
    e.0.1 in materials && materials[e.0.1].company in companies
  }

  /** `build_materials JOIN materials JOIN companies`, in row order. */
  function ByCompany(es: seq<Entry>, materials: map<int, Material>, companies: map<int, Company>)
    : (xs: seq<Share>)
    ensures |xs| <= |es|
    ensures forall i :: 0 <= i < |xs| ==> xs[i].company in companies
  {
    if es == [] then []
    else
      var rest := ByCompany(es[1..], materials, companies);
      if Joins(es[0], materials, companies) then
        [Share(materials[es[0].0.1].company, es[0].1.quantity)] + rest
      else rest
  }

  /** Some joined row belongs to company `c`. */
  ghost predicate Shows(xs: seq<Share>, c: int)
  {
    exists i :: 0 <= i < |xs| && xs[i].company == c
  }

  /** Some row joins a material of company `c`. */
  ghost predicate Sources(es: seq<Entry>, materials: map<int, Material>, companies: map<int, Company>, c: int)
  {
    exists j :: 0 <= j < |es| && Joins(es[j], materials, companies) && materials[es[j].0.1].company == c
  }

  lemma ShowsCons(x: Share, rest: seq<Share>, c: int)
    ensures Shows([x] + rest, c) <==> x.company == c || Shows(rest, c)
  {
    var xs := [x] + rest;
    if Shows(rest, c) {
      var i :| 0 <= i < |rest| && rest[i].company == c;
      assert xs[i + 1] == rest[i];
      assert Shows(xs, c);
    }
    if Shows(xs, c) && x.company != c {
      var i :| 0 <= i < |xs| && xs[i].company == c;
      assert xs[0] == x;
      assert rest[i - 1] == xs[i];
      assert Shows(rest, c);
    }
  }

  lemma SourcesCons(es: seq<Entry>, materials: map<int, Material>, companies: map<int, Company>, c: int)
    requires es != []
    ensures Sources(es, materials, companies, c)
            <==> (Joins(es[0], materials, companies) && materials[es[0].0.1].company == c)
                 || Sources(es[1..], materials, companies, c)
  {
    if Sources(es[1..], materials, companies, c) {
      var j :| 0 <= j < |es[1..]| && Joins(es[1..][j], materials, companies)
               && materials[es[1..][j].0.1].company == c;
      assert es[j + 1] == es[1..][j];
    }
    if Sources(es, materials, companies, c) {
      var j :| 0 <= j < |es| && Joins(es[j], materials, companies) && materials[es[j].0.1].company == c;
      if j > 0 {
        assert es[1..][j - 1] == es[j];
      }
    }
  }

  /** A company has a joined row exactly when one of its materials has a
      row. */
  lemma {:induction false} ByCompanyGroups(es: seq<Entry>, materials: map<int, Material>,
                                           companies: map<int, Company>, c: int)
    ensures Shows(ByCompany(es, materials, companies), c) <==> Sources(es, materials, companies, c)
  {
    if es != [] {
      var rest := ByCompany(es[1..], materials, companies);
      ByCompanyGroups(es[1..], materials, companies, c);
      SourcesCons(es, materials, companies, c);
      if Joins(es[0], materials, companies) {
        ShowsCons(Share(materials[es[0].0.1].company, es[0].1.quantity), rest, c);
      }
    }
  }

  /** When every row joins, the joins keep every quantity. */
  lemma {:induction false} ByCompanyKeepsAll(es: seq<Entry>, materials: map<int, Material>,
                                             companies: map<int, Company>)
    requires forall j :: 0 <= j < |es| ==> Joins(es[j], materials, companies)
    ensures Sum(ByCompany(es, materials, companies), ShareQuantity) == Sum(es, EntryQuantity)
  {
    if es != [] {
      ByCompanyKeepsAll(es[1..], materials, companies);
      var xs := ByCompany(es, materials, companies);
      assert xs[1..] == ByCompany(es[1..], materials, companies);
    }
  }

  /** The joined rows of the table. */
  function Shares(lines: map<(int, int), Line>, materials: map<int, Material>, companies: map<int, Company>)
    : (xs: seq<Share>)
    ensures forall i :: 0 <= i < |xs| ==> xs[i].company in companies
  {
    ByCompany(PairEntries(lines), materials, companies)
  }

  /** Company `c` owns a material some build uses. */
  predicate Supplies(lines: map<(int, int), Line>, materials: map<int, Material>, c: int)
  {
    exists p :: p in lines && p.1 in materials && materials[p.1].company == c
  }

  lemma {:induction false} SharesGroups(lines: map<(int, int), Line>, materials: map<int, Material>,
                                        companies: map<int, Company>, c: int)
    ensures Shows(Shares(lines, materials, companies), c) <==> c in companies && Supplies(lines, materials, c)
  {
    var es := PairEntries(lines);
    assert Shares(lines, materials, companies) == ByCompany(es, materials, companies);
    ByCompanyGroups(es, materials, companies, c);
    if c in companies && Supplies(lines, materials, c) {
      var p :| p in lines && p.1 in materials && materials[p.1].company == c;
      PairEntriesComplete(lines, p);
      var j :| 0 <= j < |es| && es[j] == (p, lines[p]);
      assert Joins(es[j], materials, companies);
    }
    if Sources(es, materials, companies, c) {
      var j :| 0 <= j < |es| && Joins(es[j], materials, companies) && materials[es[j].0.1].company == c;
      var p := es[j].0;
      assert p in lines && p.1 in materials && materials[p.1].company == c;
    }
  }

  /** `SUM(bm.quantity)` over the joined rows of company `c`. */
  function CompanyTotal(lines: map<(int, int), Line>, materials: map<int, Material>,
                        companies: map<int, Company>, c: int): real
  {
    GroupSum(Shares(lines, materials, companies), ShareQuantity, ShareCompany, c)
  }

  /** A row of GET /companies: the company and its summed quantity. */
  datatype CompanyRow = CompanyRow(id: int, name: string, total: real)

  function CompanyRowOf(c: int, lines: map<(int, int), Line>, materials: map<int, Material>,
                        companies: map<int, Company>): CompanyRow
    requires c in companies
  {
    CompanyRow(c, companies[c].name, CompanyTotal(lines, materials, companies, c))
  }

  /** The groups of GET /companies: the companies with a joined row. */
  function Suppliers(lines: map<(int, int), Line>, materials: map<int, Material>,
                     companies: map<int, Company>): (cs: map<int, Company>)
    ensures forall c :: c in cs <==> c in companies && Supplies(lines, materials, c)
    ensures forall c :: c in cs ==> cs[c] == companies[c]
  {
    var xs := Shares(lines, materials, companies);
    var owners := set i | 0 <= i < |xs| :: xs[i].company;
    forall c ensures c in owners <==> c in companies && Supplies(lines, materials, c) {
      SharesGroups(lines, materials, companies, c);
    }
    map c | c in owners :: companies[c]
  }

  function ScanCompanies(lines: map<(int, int), Line>, materials: map<int, Material>,
                         companies: map<int, Company>): (scan: seq<CompanyRow>)
    ensures forall i :: 0 <= i < |scan| ==>
              && scan[i].id in companies && Supplies(lines, materials, scan[i].id)
              && scan[i] == CompanyRowOf(scan[i].id, lines, materials, companies)
    ensures forall i, j :: 0 <= i < j < |scan| ==> scan[i].id < scan[j].id
  {
    var cs := Suppliers(lines, materials, companies);
    var es := Entries(cs);
    EntriesSound(cs);
    seq(|es|, i requires 0 <= i < |es| => CompanyRowOf(es[i].0, lines, materials, companies))
  }

  lemma {:induction false} ScanCompaniesComplete(lines: map<(int, int), Line>, materials: map<int, Material>,
                                                 companies: map<int, Company>, c: int)
    requires c in companies && Supplies(lines, materials, c)
    ensures CompanyRowOf(c, lines, materials, companies) in ScanCompanies(lines, materials, companies)
  {
    var cs := Suppliers(lines, materials, companies);
    EntriesComplete(cs, c);
    var i :| 0 <= i < |Entries(cs)| && Entries(cs)[i] == (c, cs[c]);
    assert ScanCompanies(lines, materials, companies)[i] == CompanyRowOf(c, lines, materials, companies);
  }

  predicate LargerTotal(a: CompanyRow, b: CompanyRow)
  {
    a.total >= b.total
  }

  /** Lets `CompanyTotals` sort by `OrderBy`. */
  lemma LargerTotalIsTotalPreorder()
    ensures TotalPreorder(LargerTotal)
  {
  }

  /** GET /companies: one row per company supplying a used material, with
      the summed quantity of its materials' rows, largest first. */
  function CompanyTotals(lines: map<(int, int), Line>, materials: map<int, Material>,
                         companies: map<int, Company>): (rows: seq<CompanyRow>)
    ensures forall i :: 0 <= i < |rows| ==>
              && rows[i].id in companies && Supplies(lines, materials, rows[i].id)
              && rows[i] == CompanyRowOf(rows[i].id, lines, materials, companies)
    ensures forall i, j :: 0 <= i < j < |rows| ==> rows[i].id != rows[j].id
    ensures forall i, j :: 0 <= i < j < |rows| ==> rows[i].total >= rows[j].total
  {
    var scan := ScanCompanies(lines, materials, companies);
    assert Distinct(scan);
    LargerTotalIsTotalPreorder();
    var rows := OrderBy(scan, LargerTotal);
    assert forall i :: 0 <= i < |rows| ==> rows[i] in scan;
    assert forall i, j :: 0 <= i < j < |rows| ==> LargerTotal(rows[i], rows[j]);
    rows
  }

  lemma {:induction false} CompanyTotalsComplete(lines: map<(int, int), Line>, materials: map<int, Material>,
                                                 companies: map<int, Company>, c: int)
    requires c in companies && Supplies(lines, materials, c)
    ensures CompanyRowOf(c, lines, materials, companies) in CompanyTotals(lines, materials, companies)
  {
    ScanCompaniesComplete(lines, materials, companies, c);
    LargerTotalIsTotalPreorder();
    OrderByComplete(ScanCompanies(lines, materials, companies), LargerTotal,
                    CompanyRowOf(c, lines, materials, companies));
  }

  function RowTotal(r: CompanyRow): real { r.total }

  function Ids(rows: seq<CompanyRow>): (ids: seq<int>)
    ensures |ids| == |rows|
    ensures forall i :: 0 <= i < |rows| ==> ids[i] == rows[i].id
  {
    if rows == [] then [] else [rows[0].id] + Ids(rows[1..])
  }

  /** Rows each holding the group sum of their id add up to the sum of
      those groups. */
  lemma {:induction false} RowTotalsAreGroupSums(rows: seq<CompanyRow>, xs: seq<Share>)
    requires forall i :: 0 <= i < |rows| ==> rows[i].total == GroupSum(xs, ShareQuantity, ShareCompany, rows[i].id)
    ensures Sum(rows, RowTotal) == SumOfGroups(xs, ShareQuantity, ShareCompany, Ids(rows))
  {
    if rows != [] {
      RowTotalsAreGroupSums(rows[1..], xs);
      assert Ids(rows)[1..] == Ids(rows[1..]);
    }
  }

  /** The company totals add up to the quantity of every joined row: GROUP
      BY splits the joined rows among the listed companies. */
  lemma {:induction false} CompanyTotalsAddUp(lines: map<(int, int), Line>, materials: map<int, Material>,
                                              companies: map<int, Company>)
    ensures Sum(CompanyTotals(lines, materials, companies), RowTotal)
            == Sum(Shares(lines, materials, companies), ShareQuantity)
  {
    var rows := CompanyTotals(lines, materials, companies);
    var xs := Shares(lines, materials, companies);
    RowTotalsAreGroupSums(rows, xs);
    var gs := Ids(rows);
    assert Distinct(gs) by {
      forall i, j | 0 <= i < j < |gs| ensures gs[i] != gs[j] {
        assert rows[i].id != rows[j].id;
      }
    }
    forall i | 0 <= i < |xs| ensures ShareCompany(xs[i]) in gs {
      var c := xs[i].company;
      SharesGroups(lines, materials, companies, c);
      CompanyTotalsComplete(lines, materials, companies, c);
      var k :| 0 <= k < |rows| && rows[k] == CompanyRowOf(c, lines, materials, companies);
      assert gs[k] == c;
    }
    GroupSumsPartition(xs, ShareQuantity, ShareCompany, gs);
  }

  /** In a consistent store every row joins, so the company totals add up
      to the quantity of every `build_materials` row. */
  lemma {:induction false} CompanyTotalsCoverAllRows(db: Store)
    requires db.Valid()
    ensures Sum(CompanyTotals(db.buildMaterials, db.materials, db.companies), RowTotal)
            == AllQuantities(db.buildMaterials)
  {
    var es := PairEntries(db.buildMaterials);
    forall j | 0 <= j < |es| ensures Joins(es[j], db.materials, db.companies) {
      assert es[j].0 in db.buildMaterials;
    }
    ByCompanyKeepsAll(es, db.materials, db.companies);
    CompanyTotalsAddUp(db.buildMaterials, db.materials, db.companies);
  }

  // ---------------------------------------------------------------------
  // GET /categories

  /** A build made from a model of category `c`. */
  predicate MadeIn(c: int, models: map<int, FurnitureModel>, b: Build)
  {
    b.model in models && models[b.model].category == c
  }

  /** `COUNT(b.id)` over the left joins for category `c`: the builds of its
      models, 0 when there are none. */
  function BuildsIn(c: int, models: map<int, FurnitureModel>, builds: map<int, Build>): (n: nat)
    ensures n == 0 <==> forall b :: b in builds ==> !MadeIn(c, models, builds[b])
  {
    var made := set b | b in builds && MadeIn(c, models, builds[b]);
    assert |made| == 0 <==> forall b :: b in builds ==> !MadeIn(c, models, builds[b]) by {
      if forall b :: b in builds ==> !MadeIn(c, models, builds[b]) {
        assert made == {};
      } else {
        var b :| b in builds && MadeIn(c, models, builds[b]);
        assert b in made;
      }
    }
    |made|
  }

  /** A row of GET /categories: the category and its build count. */
  datatype CategoryRow = CategoryRow(id: int, name: string, builds: nat)

  function CategoryRowOf(c: int, categories: map<int, Category>, models: map<int, FurnitureModel>,
                         builds: map<int, Build>): CategoryRow
    requires c in categories
  {
    CategoryRow(c, categories[c].name, BuildsIn(c, models, builds))
  }

  function ScanCategories(categories: map<int, Category>, models: map<int, FurnitureModel>,
                          builds: map<int, Build>): (scan: seq<CategoryRow>)
    ensures |scan| == |categories|
    ensures forall i :: 0 <= i < |scan| ==>
              scan[i].id in categories && scan[i] == CategoryRowOf(scan[i].id, categories, models, builds)
    ensures forall i, j :: 0 <= i < j < |scan| ==> scan[i].id < scan[j].id
  {
    var es := Entries(categories);
    EntriesSound(categories);
    seq(|es|, i requires 0 <= i < |es| => CategoryRowOf(es[i].0, categories, models, builds))
  }

  lemma {:induction false} ScanCategoriesComplete(categories: map<int, Category>, models: map<int, FurnitureModel>,
                                                  builds: map<int, Build>, c: int)
    requires c in categories
    ensures CategoryRowOf(c, categories, models, builds) in ScanCategories(categories, models, builds)
  {
    EntriesComplete(categories, c);
    var i :| 0 <= i < |Entries(categories)| && Entries(categories)[i] == (c, categories[c]);
    assert ScanCategories(categories, models, builds)[i] == CategoryRowOf(c, categories, models, builds);
  }

  predicate MoreBuilt(a: CategoryRow, b: CategoryRow)
  {
    a.builds >= b.builds
  }

  /** Lets `CategoryBuildCounts` sort by `OrderBy`. */
  lemma MoreBuiltIsTotalPreorder()
    ensures TotalPreorder(MoreBuilt)
  {
  }

  /** GET /categories, along category, model, build: every category exactly
      once (the left joins keep the ones without builds, with 0), with the
      number of builds of its models, largest first. */
  function CategoryBuildCounts(categories: map<int, Category>, models: map<int, FurnitureModel>,
                               builds: map<int, Build>): (rows: seq<CategoryRow>)
    ensures |rows| == |categories|
    ensures forall i :: 0 <= i < |rows| ==>
              rows[i].id in categories && rows[i] == CategoryRowOf(rows[i].id, categories, models, builds)
    ensures forall i, j :: 0 <= i < j < |rows| ==> rows[i].id != rows[j].id
    ensures forall i, j :: 0 <= i < j < |rows| ==> rows[i].builds >= rows[j].builds
  {
    var scan := ScanCategories(categories, models, builds);
    assert Distinct(scan);
    MoreBuiltIsTotalPreorder();
    var rows := OrderBy(scan, MoreBuilt);
    assert forall i :: 0 <= i < |rows| ==> rows[i] in scan;
    assert forall i, j :: 0 <= i < j < |rows| ==> MoreBuilt(rows[i], rows[j]);
    rows
  }

  /** Every category is listed. */
  lemma {:induction false} CategoryBuildCountsComplete(categories: map<int, Category>,
                                                       models: map<int, FurnitureModel>,
                                                       builds: map<int, Build>, c: int)
    requires c in categories
    ensures CategoryRowOf(c, categories, models, builds) in CategoryBuildCounts(categories, models, builds)
  {
    ScanCategoriesComplete(categories, models, builds, c);
    MoreBuiltIsTotalPreorder();
    OrderByComplete(ScanCategories(categories, models, builds), MoreBuilt,
                    CategoryRowOf(c, categories, models, builds));
  }

  /** The columns of the `builds` table: the key and the columns POST /builds
      inserts and GET /builds selects. */
  const BuildColumns: set<string> :=
    {"id", "furniture_model_id", "ref", "date_creation", "destination", "notes"}

  /** GET /categories as its statement is written: the builds join names
      `b.model_id`. The engine refuses a statement naming a column the table
      does not have, and the `catch` answers 500; only with such a column
      would the statement count the builds of each category. */
  function CategoryBuildCountsAsWritten(categories: map<int, Category>, models: map<int, FurnitureModel>,
                                        builds: map<int, Build>): (r: Reply<seq<CategoryRow>>)
    ensures r.Failure? <==> "model_id" !in BuildColumns
    ensures r.Failure? ==> r.status == ServerError
    ensures r.Success? ==> r.body == CategoryBuildCounts(categories, models, builds)
  {
    if "model_id" in BuildColumns then Success(CategoryBuildCounts(categories, models, builds))
    else Failure(ServerError)
  }

  /** On every store, the statement as written answers 500, while the join
      through `furniture_model_id` answers one row per category. The empty
      store already tells them apart. */
  lemma AsWrittenCategoryCountsFail(categories: map<int, Category>, models: map<int, FurnitureModel>,
                                    builds: map<int, Build>)
    ensures CategoryBuildCountsAsWritten(categories, models, builds) == Failure(ServerError)
    ensures |CategoryBuildCounts(categories, models, builds)| == |categories|
    ensures "furniture_model_id" in BuildColumns
  {
  }
}
