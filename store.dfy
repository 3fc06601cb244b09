/** The relational store the route handlers work on: one table per entity,
    each a map from primary key to row, `build_materials` keyed by the pair
    (build id, material id), `furniture_tags` a set of (model id, tag id)
    pairs, and an AUTO_INCREMENT counter per table with a surrogate key. */
module Tables {
  import opened Base
  import opened Text
  import opened Naming

  datatype Company = Company(name: string)
  datatype Category = Category(name: string)
  /** `kind` is the `type` column. */
  datatype Material = Material(name: string, kind: string, company: int)
  datatype FurnitureModel = FurnitureModel(name: string, description: Option<string>, category: int)
  /** `reference` is the `ref` column; a date is the day number it denotes. */
  datatype Build = Build(model: int, reference: Option<string>, date: Option<int>,
                         destination: Option<string>, notes: Option<string>)
  /** `text` is the `label` column. */
  datatype Tag = Tag(text: string)
  /** The payload of a `build_materials` row. */
  datatype Line = Line(quantity: real, unit: string, costUnit: real)

  /** Every key was handed out by a counter that starts at 1. */
  predicate KeysBelow<R>(m: map<int, R>, next: int)
  {
    1 <= next && forall k :: k in m ==> 1 <= k < next
  }

  // The name columns that carry a unique index.
  function CompanyName(c: Company): string { c.name }
  function CategoryName(c: Category): string { c.name }
  function TagText(t: Tag): string { t.text }

  /** `SELECT id FROM t WHERE id = ?` with the given value finds a row. */
  predicate Resolves<R>(x: Input<Num>, m: map<int, R>)
  {
    SqlKey(x).Some? && SqlKey(x).value in m
  }

  // Foreign keys: every reference resolves.

  predicate MaterialsRefCompanies(materials: map<int, Material>, companies: map<int, Company>)
  {
    forall k :: k in materials ==> materials[k].company in companies
  }

  predicate ModelsRefCategories(models: map<int, FurnitureModel>, categories: map<int, Category>)
  {
    forall k :: k in models ==> models[k].category in categories
  }

  predicate BuildsRefModels(builds: map<int, Build>, models: map<int, FurnitureModel>)
  {
    forall k :: k in builds ==> builds[k].model in models
  }

  predicate LinesRef(lines: map<(int, int), Line>, builds: map<int, Build>, materials: map<int, Material>)
  {
    forall p :: p in lines ==> p.0 in builds && p.1 in materials
  }

  predicate TagLinksRef(links: set<(int, int)>, models: map<int, FurnitureModel>, tags: map<int, Tag>)
  {
    forall p :: p in links ==> p.0 in models && p.1 in tags
  }

  // ON DELETE CASCADE: the rows a deletion takes with it.

  /** The builds that survive deleting model `model`. */
  function BuildsNotOf(builds: map<int, Build>, model: int): (r: map<int, Build>)
    ensures forall b :: b in r <==> b in builds && builds[b].model != model
    ensures forall b :: b in r ==> r[b] == builds[b]
  {
    map b | b in builds && builds[b].model != model :: builds[b]
  }

  /** The material lines whose build survives. */
  function LinesOfBuilds(lines: map<(int, int), Line>, builds: map<int, Build>): (r: map<(int, int), Line>)
    ensures forall p :: p in r <==> p in lines && p.0 in builds
    ensures forall p :: p in r ==> r[p] == lines[p]
  {
    map p | p in lines && p.0 in builds :: lines[p]
  }

  /** The tag links that survive deleting model `model`. */
  function LinksNotOf(links: set<(int, int)>, model: int): (r: set<(int, int)>)
    ensures forall p :: p in r <==> p in links && p.0 != model
  {
    set p | p in links && p.0 != model
  }

  class Store {
    var companies: map<int, Company>
    var materials: map<int, Material>
    var categories: map<int, Category>
    var models: map<int, FurnitureModel>
    var builds: map<int, Build>
    var tags: map<int, Tag>
    var buildMaterials: map<(int, int), Line>
    var furnitureTags: set<(int, int)>

    // AUTO_INCREMENT counters: the id the next insert receives.
    var nextCompany: int
    var nextMaterial: int
    var nextCategory: int
    var nextModel: int
    var nextBuild: int
    var nextTag: int

    /** The schema's constraints: keys below their counters, unique names and
        labels, and foreign keys that resolve. The id each counter hands out
        next is therefore free. */
    ghost predicate Valid()
      reads this
      ensures Valid() ==>
                && nextCompany !in companies && nextMaterial !in materials && nextCategory !in categories
                && nextModel !in models && nextBuild !in builds && nextTag !in tags
    {
      && KeysBelow(companies, nextCompany)
      && KeysBelow(materials, nextMaterial)
      && KeysBelow(categories, nextCategory)
      && KeysBelow(models, nextModel)
      && KeysBelow(builds, nextBuild)
      && KeysBelow(tags, nextTag)
      && UniqueNames(companies, CompanyName)
      && UniqueNames(categories, CategoryName)
      && UniqueNames(tags, TagText)
      && MaterialsRefCompanies(materials, companies)
      && ModelsRefCategories(models, categories)
      && BuildsRefModels(builds, models)
      && LinesRef(buildMaterials, builds, materials)
      && TagLinksRef(furnitureTags, models, tags)
    }

    /** An empty database. */
    constructor ()
      ensures Valid()
      ensures companies == map[] && materials == map[] && categories == map[]
      ensures models == map[] && builds == map[] && tags == map[]
      ensures buildMaterials == map[] && furnitureTags == {}
    {
      companies, materials, categories := map[], map[], map[];
      models, builds, tags := map[], map[], map[];
      buildMaterials, furnitureTags := map[], {};
      nextCompany, nextMaterial, nextCategory := 1, 1, 1;
      nextModel, nextBuild, nextTag := 1, 1, 1;
    }
  }
}
