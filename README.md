# Gestion meubles — a verified model of the furniture workshop back office

The application keeps the catalogue of a furniture workshop in a MySQL
database and serves it through an Express API under `/api/private`.
- Companies supply raw materials of three types: wood, iron and plastic.
- Furniture models belong to a category and carry tags.
- Builds are the pieces actually made from a model. Each build lists the
  materials it consumed, with quantity, unit and unit cost.
- A statistics route summarises all of this.
- The React client shows every resource through one sortable, paginated
  table component.

This project models, in Dafny:

- the route handlers of `server/routes/private/`:
  - `companies`, `categories` and `tags`;
  - `materials` and `furniture_models`;
  - `builds`;
  - `stats`;
- the sort and page logic of `client/src/components/DataTable.jsx`.

The database is the class `Tables.Store`.
- It holds one map field per table, from primary key to row.
- `build_materials` is keyed by the pair (build, material).
- `furniture_tags` is a set of (model, tag) pairs.
- Each table with a surrogate key has an AUTO_INCREMENT counter.
- `Store.Valid()` states the schema's constraints:
  - keys lie below their counters;
  - company names, category names and tag labels are unique;
  - every foreign key resolves.

How each kind of handler is modelled:

- **Handlers that write** are methods on the store. Each `ensures`:
  - gives the HTTP status as a function of the request and the old state, in
    the order the handler tests its conditions;
  - states the whole new content of the tables it may modify.

  Each method's `modifies` clause names only those tables. Every method
  preserves `Valid()`.
- **Handlers that only read** are functions of the maps. Each listing is
  proved:
  - sound: every row it returns satisfies the query's joins and filters;
  - complete: every row that does is returned;
  - free of duplicates;
  - ordered as its `ORDER BY` says.
- **The `SET` clauses** that PUT handlers assemble are methods that push one
  item per field, as the handlers do. Each is proved to store exactly the
  patched row.
- **The table component** is the class `DataTable.Table`:
  - its fields are the props and the `sort` and `page` state;
  - the sort runs as an in-place insertion sort on a fresh array holding a
    copy of the rows. It is proved to permute the rows and to order them by
    the component's comparator, which compares strings by their UTF-16 code
    units as JavaScript's `>` does;
  - the page arithmetic is proved to partition the sorted rows into the
    pages it counts.

The file layout:

| File | Contents |
|---|---|
| `base.dfy` | request inputs and HTTP statuses |
| `text.dfy` | `trim`, the name collation and JavaScript's string order |
| `naming.dfy` | listings by name and name uniqueness |
| `collections.dfy` | map enumeration, sorting and `GROUP BY` sums |
| `store.dfy` | the tables |
| `data_table.dfy` | the client table |
| remaining files | one module per route file |

## Model

| member | source | states |
|---|---|---|
| Base.IsInteger | server/routes/private/furniture_models.js:58 | `Number.isInteger(Number(x))` accepts exactly `null` (read as 0) and the values that bind an integer key |
| Base.Truthy | server/routes/private/materials.js:51 | a field is truthy only when given, and a given value is truthy exactly when `Number` does not read it as 0 |
| Base.SqlKey | server/routes/private/materials.js:55-59 | an id binds a row only when it is given and is an integer, and then it binds exactly that integer |
| Text.Trim | server/routes/private/companies.js:28 | `trim` cuts leading and trailing white space only: the result starts and ends with a non-space character |
| Text.TrimEmptyIffAllSpace | server/routes/private/companies.js:28 | `!name?.trim()` rejects a name exactly when it is all white space |
| Text.TrimIdempotent | server/routes/private/companies.js:32 | trimming a trimmed name changes nothing |
| Text.Units | client/src/components/DataTable.jsx:28 | a character below U+10000 is one code unit; a character above is a high surrogate then a low surrogate, from which its code point is recovered |
| Text.Utf16Injective | client/src/components/DataTable.jsx:28 | two different strings have different UTF-16 encodings |
| Text.JsOrder | client/src/components/DataTable.jsx:28 | JavaScript's order on strings, by UTF-16 code units, is total, transitive and antisymmetric |
| Text.NameOrder | server/routes/private/companies.js:14 | `ORDER BY name` is a total preorder, and two names it cannot tell apart are equal under the collation |
| Naming.ByNameIsTotalPreorder | server/routes/private/companies.js:14 | any order on rows that compares the names read off them is a total preorder, so `ORDER BY name` can be sorted by |
| Naming.StoreNameKeepsUnique | server/routes/private/companies.js:31-37 | storing a name no other row holds keeps the unique index satisfied |
| Naming.ListNamed | server/routes/private/companies.js:10-20 | the id/name listing holds one row per table row, each with that row's name, ordered by name |
| Naming.ListNamedComplete | server/routes/private/companies.js:10-20 | every row of the table is in the id/name listing |
| Companies.ListCompanies | server/routes/private/companies.js:10-20 | GET / lists every company once, with its name, ordered by name |
| Companies.CreateCompany | server/routes/private/companies.js:26-40 | a blank name is 400 and a name already taken is 409, both leaving the table unchanged; the rejected insert of a 409 still uses up the next id; otherwise the trimmed name is inserted under the next id and the answer is 201 |
| Companies.UpdateCompany | server/routes/private/companies.js:46-64 | a blank name is 400; an unknown id is 404; a name another company holds is 409; otherwise only that company's name changes |
| Companies.DeleteCompany | server/routes/private/companies.js:70-81 | an unknown id is 404; a company that still supplies a material is kept and the answer is 500; otherwise the company is removed and the answer is 204 |
| Categories.ListCategories | server/routes/private/categories.js:6-16 | GET / lists every category once, ordered by name |
| Categories.CreateCategory | server/routes/private/categories.js:18-32 | 400 for a blank name, 409 for a taken name (whose rejected insert uses up the next id), otherwise 201 with the trimmed name under the next id |
| Categories.UpdateCategory | server/routes/private/categories.js:34-52 | 400, then 404, then 409, otherwise only that category's name changes |
| Categories.DeleteCategory | server/routes/private/categories.js:54-66 | 404 for an unknown id; 500 with the table unchanged while a model uses the category; otherwise 204 and the category is gone |
| Tags.ListTags | server/routes/private/tags.js:9-19 | GET / lists every tag once, ordered by label |
| Tags.CreateTag | server/routes/private/tags.js:25-39 | 400 for a blank label, 409 for a taken label (whose rejected insert uses up the next id), otherwise 201 with the trimmed label under the next id |
| Tags.TaggedModels | server/routes/private/tags.js:48-53 | the models joined by `GET /:id/models` are exactly the models linked to the tag whose category resolves |
| Tags.ModelsForTag | server/routes/private/tags.js:45-60 | every row is a model linked to the tag, with its name and its category's name, and each model appears once |
| Tags.ModelsForTagComplete | server/routes/private/tags.js:45-60 | every linked model whose category resolves is returned |
| Tags.UnlinkedTagHasNoModels | server/routes/private/tags.js:51-53 | a tag without links returns an empty list, not 404 |
| Tags.UnknownTagHasNoModels | server/routes/private/tags.js:45-60 | in a consistent store an unknown tag id returns an empty list |
| Materials.Kept | server/routes/private/materials.js:27-31 | the company join plus the type and company filters keep exactly the materials they accept |
| Materials.ListMaterials | server/routes/private/materials.js:11-41 | a non-empty type outside the whitelist is 400; a `company_id` that `Number` makes NaN or infinite is 500, because the statement then names an unknown column; otherwise every listed row passes the join and the filters, appears once, and the rows are ordered by name |
| Materials.ListMaterialsComplete | server/routes/private/materials.js:11-41 | every material the join and the filters accept is listed |
| Materials.MeetsAllSnoc | server/routes/private/materials.js:16-25 | each pushed `WHERE` condition narrows the rows by exactly that condition |
| Materials.ScanWhereIsScan | server/routes/private/materials.js:27-33 | a `WHERE` clause whose conditions say what the filters say selects the same rows |
| Materials.SearchMaterials | server/routes/private/materials.js:11-41 | the handler, assembling its `WHERE` clause one push at a time and failing with 500 when a parameter cannot be written into the statement, returns the answer `ListMaterials` specifies |
| Materials.GetMaterial | server/routes/private/materials.js:86-100 | GET /:id is 404 unless the material exists and its company resolves; otherwise the answer is the material with its company's name |
| Materials.DuplicateIffCollides | server/routes/private/materials.js:61-68 | the duplicate lookup finds a row exactly when inserting the new material would give its company two materials of one name |
| Materials.CreateMaterial | server/routes/private/materials.js:47-80 | in order: 400 for a blank name, a type outside the whitelist, a missing company id or an unknown company, then 409 for a duplicate name within the company, otherwise 201 with the new row; the (name, company) uniqueness is preserved |
| Materials.Clause | server/routes/private/materials.js:127-142 | the `SET` clause is empty exactly when the name is blank, the type is empty and the company id is falsy |
| Materials.ClauseRuns | server/routes/private/materials.js:127-148 | running the `SET` clause on the row stores the patched row |
| Materials.SetClause | server/routes/private/materials.js:127-140 | the push-built clause is empty in the same cases and stores the patched row |
| Materials.UpdateMaterial | server/routes/private/materials.js:106-158 | in order: 400 for a bad type, 404 for an unknown id, 400 for an unknown company, 400 when nothing is to be updated; otherwise only that row changes, to the patched row, and that row is returned |
| Materials.DeleteMaterial | server/routes/private/materials.js:164-176 | 404 for an unknown id; 500 with nothing removed while a build uses the material; otherwise 204 and the material is gone |
| FurnitureModels.BuildsCount | server/routes/private/furniture_models.js:16-20 | `builds_count` is zero exactly when no build uses the model |
| FurnitureModels.Joined | server/routes/private/furniture_models.js:17-18 | the category join keeps exactly the models whose category resolves |
| FurnitureModels.ListModels | server/routes/private/furniture_models.js:10-27 | every listed row is a model with its category and build count, each model once, ordered by name |
| FurnitureModels.ListModelsComplete | server/routes/private/furniture_models.js:10-27 | every model whose category resolves is listed |
| FurnitureModels.GetModel | server/routes/private/furniture_models.js:33-49 | 404 unless the model and its category are found; otherwise the model with its category's id and name |
| FurnitureModels.CreateModel | server/routes/private/furniture_models.js:55-83 | 400 for a blank name, then for a category id that is not an integer, then for an unknown category; otherwise 201, and the row stores the trimmed name, the description or null, and the category |
| FurnitureModels.Clause | server/routes/private/furniture_models.js:116-129 | the `SET` clause is empty exactly when the body defines no field |
| FurnitureModels.ClauseRuns | server/routes/private/furniture_models.js:116-136 | running the clause stores the patched row |
| FurnitureModels.SetClause | server/routes/private/furniture_models.js:116-129 | the push-built clause is empty in the same case and stores the patched row |
| FurnitureModels.UpdateModel | server/routes/private/furniture_models.js:89-143 | in order: 400 for a defined name that is blank or null, 400 for a defined category id that is not an integer, 404, then 400 for an unknown category; otherwise 200 and only that model changes, to the patched row, and an empty body changes nothing |
| FurnitureModels.CascadeKeepsReferences | server/routes/private/furniture_models.js:145-155 | deleting a model together with its builds, their material lines and its tag links leaves every foreign key resolving |
| FurnitureModels.DeleteModel | server/routes/private/furniture_models.js:149-162 | 404 for an unknown id; otherwise 204, and the model, its builds, their lines and its tag links are removed while everything else is kept |
| Builds.Kept | server/routes/private/builds.js:17-19 | the model join and the `model_id` filter keep exactly the builds they accept |
| Builds.ListBuilds | server/routes/private/builds.js:10-27 | a `model_id` that `Number` makes NaN or infinite is 500, because the statement then names an unknown column; otherwise every row is a build of the filtered model, or any build when there is no filter, with its model's name; each build appears once; rows are ordered by date descending, then id descending |
| Builds.ListBuildsComplete | server/routes/private/builds.js:10-27 | every build the filter accepts is listed |
| Builds.NewerIsTotalPreorder | server/routes/private/builds.js:20 | `ORDER BY date_creation DESC, id DESC` is a total preorder that ties two rows only when date and id agree |
| Builds.ListBuildsOrder | server/routes/private/builds.js:20 | undated builds come after dated ones, dates never increase down the list, and of two builds with the same date the higher id comes first |
| Builds.LinesOf | server/routes/private/builds.js:47-52 | a build's material lines are exactly its `build_materials` rows whose material resolves |
| Builds.BuildLines | server/routes/private/builds.js:47-55 | each line is one of the build's rows with its material, once per material, ordered by material name |
| Builds.BuildLinesComplete | server/routes/private/builds.js:47-55 | every line of the build whose material resolves is in the detail |
| Builds.GetBuild | server/routes/private/builds.js:33-60 | 404 unless the joins find the build, its model and the model's category; otherwise the build with its model, its category and its material lines |
| Builds.GetBuildOfValid | server/routes/private/builds.js:33-60 | in a consistent store every existing build is found, and each of its lines is in its detail |
| Builds.CreateBuild | server/routes/private/builds.js:66-101 | 400 for a model id that is not an integer, then for an unknown model; otherwise 201 and exactly one build is added, with null for every optional field left out |
| Builds.Clause | server/routes/private/builds.js:116-137 | the `SET` clause is empty exactly when the body defines no field |
| Builds.RunItem | server/routes/private/builds.js:118-137 | one more item of the clause applies its assignment when its field is defined and otherwise changes nothing |
| Builds.ClauseRuns | server/routes/private/builds.js:116-161 | running the clause stores the patched row |
| Builds.SetClause | server/routes/private/builds.js:116-137 | the push-built clause is empty exactly when no field is defined, and it stores the patched row |
| Builds.UpdateBuild | server/routes/private/builds.js:107-166 | 400 for a model id that is not an integer; an empty body is 200 without looking the build up; then 404, then 400 for an unknown model; otherwise only that build changes, to the patched row |
| Builds.DeleteBuild | server/routes/private/builds.js:172-184 | 404 for an unknown id; otherwise 204, and the build and its material lines go while everything else is kept |
| Builds.Upsert | server/routes/private/builds.js:213-217 | the row for the pair holds the new line and every other row is unchanged; the table grows by one exactly when the pair was new |
| Builds.UpsertIdempotent | server/routes/private/builds.js:213-217 | repeating the same call changes nothing more |
| Builds.UpsertLatestWins | server/routes/private/builds.js:216 | of two calls on the same pair, the later one's values stay |
| Builds.AddMaterial | server/routes/private/builds.js:190-225 | 400 for a material id that is not an integer, 404 for an unknown build, 400 for an unknown material; otherwise 201 and the line, with quantity 0, unit "u" and cost 0 by default, is upserted |
| Stats.GlobalCounts | server/routes/private/stats.js:10-24 | the four counts are the sizes of the four tables |
| Stats.Used | server/routes/private/stats.js:36-39 | the groups of the top-materials query are exactly the materials some line uses |
| Stats.RankMaterials | server/routes/private/stats.js:34-40 | one row per used material, with its summed quantity, each once, ordered by total descending |
| Stats.RankMaterialsComplete | server/routes/private/stats.js:34-40 | every used material is ranked |
| Stats.Limit | server/routes/private/stats.js:32 | the limit defaults to 7; a given limit counts only when it is a non-negative integer |
| Stats.Top | server/routes/private/stats.js:34-44 | the first `limit` rows of the ranking: as many as the limit allows, rows ordered by total descending |
| Stats.TopAreTop | server/routes/private/stats.js:40-41 | a used material left out of the top is left out only because the limit is full, and its total is at most every listed total |
| Stats.TopMaterials | server/routes/private/stats.js:30-49 | a limit the engine refuses is 500; otherwise the body is the top of the ranking |
| Stats.ByCompany | server/routes/private/stats.js:60-62 | the two inner joins keep only rows whose material and that material's company resolve |
| Stats.ByCompanyGroups | server/routes/private/stats.js:60-63 | a company has a joined row exactly when one of its materials has a line |
| Stats.ByCompanyKeepsAll | server/routes/private/stats.js:60-62 | when every row joins, the joins lose no quantity |
| Stats.SharesGroups | server/routes/private/stats.js:58-63 | a company has a group exactly when it exists and supplies a material some build uses |
| Stats.Suppliers | server/routes/private/stats.js:58-63 | the groups are exactly the existing companies with a used material |
| Stats.CompanyTotals | server/routes/private/stats.js:55-70 | one row per such company, with its summed quantity, each once, ordered by total descending |
| Stats.CompanyTotalsComplete | server/routes/private/stats.js:55-70 | every such company is listed |
| Stats.CompanyTotalsAddUp | server/routes/private/stats.js:58-64 | the company totals add up to the quantity of all joined rows |
| Stats.CompanyTotalsCoverAllRows | server/routes/private/stats.js:58-64 | in a consistent store the company totals add up to the quantity of every `build_materials` row |
| Stats.BuildsIn | server/routes/private/stats.js:80-84 | a category's build count is zero exactly when no build is of one of its models |
| Stats.CategoryBuildCounts | server/routes/private/stats.js:76-91 | one row per category, including categories without builds, each once, ordered by build count descending |
| Stats.CategoryBuildCountsComplete | server/routes/private/stats.js:76-91 | every category is listed |
| Stats.CategoryBuildCountsAsWritten | server/routes/private/stats.js:76-91 | the statement as written names `b.model_id`; the `builds` table has no such column, so the engine refuses it and the answer is 500 |
| Stats.AsWrittenCategoryCountsFail | server/routes/private/stats.js:83 | on every store the as-written statement answers 500, while the join through `furniture_model_id`, a column the table has, lists one row per category |
| Tables.Store.Valid | server/routes/private/companies.js:31-37 | the schema's constraints; under them each AUTO_INCREMENT counter names a free id, so `insertId` never overwrites a row |
| Tables.BuildsNotOf | server/routes/private/furniture_models.js:147 | the builds the cascade keeps are exactly those of other models |
| Tables.LinesOfBuilds | server/routes/private/builds.js:172-184 | the material lines kept are exactly those of surviving builds |
| Tables.LinksNotOf | server/routes/private/furniture_models.js:147 | the tag links kept are exactly those of other models |
| DataTable.Compare | client/src/components/DataTable.jsx:23-28 | a missing cell sorts after a present one when ascending and before it when descending; cells compare 0 exactly when they are equal; other cells compare 1 exactly when `>` holds and the direction is ascending, or when it fails and the direction is descending |
| DataTable.CompareReverses | client/src/components/DataTable.jsx:25-28 | descending order is ascending order negated, nulls included |
| DataTable.GreaterStrict | client/src/components/DataTable.jsx:28 | of two distinct values of one kind, exactly one is greater |
| DataTable.GreaterTransitive | client/src/components/DataTable.jsx:28 | `>` on two values of one kind is transitive |
| DataTable.SurrogatesBeforeHighBmp | client/src/components/DataTable.jsx:28 | a character above U+FFFF sorts below U+FF21, as UTF-16 code units order them, although its code point is larger |
| DataTable.CompareAntisymmetric | client/src/components/DataTable.jsx:22-29 | on a column of one kind, swapping the arguments negates the comparison |
| DataTable.CompareTransitive | client/src/components/DataTable.jsx:22-29 | on a column of one kind the comparator is transitive, so it is a consistent order for the sort |
| DataTable.Place | client/src/components/DataTable.jsx:22 | one pass of the in-place sort permutes the array and extends its sorted prefix by one row |
| DataTable.SortRows | client/src/components/DataTable.jsx:20-31 | sorting a copy gives a permutation of the rows, ordered by the comparator whenever the column holds one kind of value |
| DataTable.NullsPlacement | client/src/components/DataTable.jsx:25-26 | in the sorted rows, ascending puts rows without the value after all others, and descending before |
| DataTable.InitialSort | client/src/components/DataTable.jsx:17 | the table starts sorted on the first column, ascending |
| DataTable.Toggled | client/src/components/DataTable.jsx:37-42 | a header click always selects that column |
| DataTable.ToggleCurrent | client/src/components/DataTable.jsx:39-40 | clicking the current column flips the direction, and a second click restores it |
| DataTable.ToggleOther | client/src/components/DataTable.jsx:41 | clicking another column sorts it ascending |
| DataTable.PageSliceRows | client/src/components/DataTable.jsx:33-34 | a page from 1 on starts at `(page - 1) * pageSize` and holds the rows from there, at most `pageSize` of them |
| DataTable.PageCount | client/src/components/DataTable.jsx:35 | the page count is at least 1, and it is the least count whose pages hold every row |
| DataTable.PagesCoverRows | client/src/components/DataTable.jsx:33-35 | every row is shown on the page its index falls in, and that page is one of the counted pages |
| DataTable.PastLastPage | client/src/components/DataTable.jsx:33-35 | a page past the last one shows no rows |
| DataTable.Table.constructor | client/src/components/DataTable.jsx:16-18 | mounting starts on the first column, ascending, on page 1 |
| DataTable.Table.Receive | client/src/components/DataTable.jsx:16-20 | new `rows` from the parent replace the shown rows, while the `sort` and `page` state persist across the re-render |
| DataTable.Table.Toggle | client/src/components/DataTable.jsx:37-42 | a header click updates the sort state as `Toggled` says, and the page stays |
| DataTable.Table.Prev | client/src/components/DataTable.jsx:83-89 | "previous" moves back one page unless the page is 1 or less, when it is disabled |
| DataTable.Table.Next | client/src/components/DataTable.jsx:93-99 | "next" moves on one page unless the page is the last or later, when it is disabled; it never passes the last page |
| DataTable.Table.Render | client/src/components/DataTable.jsx:20-34 | the render sorts a copy of the rows and shows the current page of it, at most `pageSize` rows |

## Left out

- The HTTP layer, the connection pool and `async` control flow are not modelled. A handler is a call on the store. The `500` answers of the `catch` blocks appear only where the engine refuses a statement: a foreign key restricting a delete, a `LIMIT` the engine rejects, or a query-string id that `Number` makes NaN or infinite, which `pool.query` writes into the statement as the unknown column `NaN` or `Infinity`.
- Authentication and the public routes are not part of this model.
- Concurrency is not modelled, and calls are sequential. The check-then-insert of `POST /materials` (materials.js:61-72) is therefore atomic here.
- Request values are abstracted:
  - a body field is missing, `null` or a given value;
  - an id is what `Number` makes of it: an integer, a finite number that is not an integer, or a value that is not finite (NaN from a non-numeric string, or an infinity);
  - a numeric string is taken as the number it spells, and a path `:id` as an integer.
  - Type coercions beyond that are not modelled.
- Materials.CreateMaterial: a `company_id` given as a string that `Number` reads as 0, such as `"0"`, is truthy in JavaScript. The source then looks the company up and answers 400 "company_id inconnu"; the model takes the value as the number 0, so it answers 400 "company_id requis".
- Materials.UpdateMaterial: for a `company_id` given as a string that `Number` reads as 0, such as `"0"`, the source looks the company up and answers 400 "company_id inconnu". The model takes the value as the number 0, which is falsy, so it skips the company and can answer 200. Which values came as strings is not recorded.
- Quantities and costs are real numbers, not MySQL `DECIMAL` or JavaScript floating point. A date is the day number it denotes.
- Builds.AddMaterial: a JSON `null` for quantity, unit or cost is not modelled. It would bypass the defaults and reach the insert.
- The collation of names (`utf8mb4_unicode_ci`) is approximated by ASCII case folding, in both the unique indexes and `ORDER BY name`.
- Rows that tie in an `ORDER BY` come in no specified order, and the model does not fix one.
- The schema file is not part of this model. From it, the model assumes:
  - the unique indexes on names and labels;
  - `ON DELETE CASCADE` from models to builds and tag links, and from builds to their material lines;
  - `RESTRICT` on the other foreign keys.
  - The stored invariant `Store.Valid` states exactly these.
- Materials.UpdateMaterial: it can give two materials of one company the same name, because no unique index is known for that pair. The (name, company) uniqueness is therefore proved only for `CreateMaterial`, not kept in `Valid`.
- The schema file is not part of this model, so the columns of `builds` are taken from the statements that name them (builds.js:15-18 and builds.js:86). The finding below rests on that list.
- Stats.TopMaterials: a limit that is not a non-negative integer is modelled as a refused statement (500). What the driver does with such a value is not modelled.
- Builds.Assign: the assignment of a `NULL` model id never runs, and the model leaves the row unchanged for it. A `null` model id passes `Number.isInteger` (`Number(null)` is 0), but the model lookup finds no row, so the handler answers 400 before the update.
- Routes the client calls that the server files do not define are not modelled: deleting a material line of a build, the tags of a model, and the materials of a tag.
- DataTable.Greater: a comparison of cells of different kinds (a number with a string) is not modelled as JavaScript does it. JavaScript converts the string to a number; here such cells are never greater. For this reason the sort order is proved only for columns that hold one kind of value. Strings are sequences of Unicode scalar values, so a JavaScript string holding a lone surrogate cannot be a cell; other strings are compared by their UTF-16 code units, as JavaScript does.
- DataTable.SortRows: the order is proved, but not the stability of the JavaScript sort, nor its particular algorithm. Booleans and objects as cell values are not modelled, and `null` and `undefined` are both a missing cell.
- DataTable.PageCount: a `pageSize` that is not a positive integer is not modelled. Every page of the client passes 10.
- The rendering of the table (headers, arrows, cells, custom renderers, the empty-state row) is not modelled.

## Findings

| source | as written | input that shows it | evidently intended | confidence | as-written member | corrected member |
|---|---|---|---|---|---|---|
| server/routes/private/stats.js:83 | `LEFT JOIN builds b ON b.model_id = m.id`: `builds` has no `model_id` column, because the other queries name it `furniture_model_id` (builds.js:15-18, builds.js:86, furniture_models.js:19). The engine refuses the statement, and the `catch` answers 500 | any `GET /api/private/stats/categories`, the empty store included | `ON b.furniture_model_id = m.id`: the number of builds per category (stats.js:74), with zero for a category without builds | plausible, not executed; no schema file confirms the columns | Stats.CategoryBuildCountsAsWritten | Stats.CategoryBuildCounts |
