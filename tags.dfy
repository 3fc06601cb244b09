/** The `/tags` resource: list and create labels, and list the furniture
    models carrying a tag. */
module Tags {
  import opened Base
  import opened Text
  import opened Collections
  import opened Naming
  import opened Tables

  /** GET /: every tag once, ordered by label. */
  function ListTags(tags: map<int, Tag>): (rows: seq<NamedRow>)
    ensures |rows| == |tags|
    ensures forall i :: 0 <= i < |rows| ==>
              rows[i].id in tags && rows[i].name == tags[rows[i].id].text
    ensures forall i, j :: 0 <= i < j < |rows| ==> rows[i].id != rows[j].id
    ensures forall i, j :: 0 <= i < j < |rows| ==> NameLe(rows[i].name, rows[j].name)
  {
    ListNamed(tags, TagText)
  }

  /** POST /: blank label 400, a label some tag already has 409, otherwise one
      new row holding the trimmed label under the next id. */
  method CreateTag(db: Store, text: Input<string>) returns (st: Status, id: int)
    requires db.Valid()
    modifies db`tags, db`nextTag
    ensures db.Valid()
    ensures !Present(text) ==> st == BadRequest(LabelRequired)
    ensures Present(text) ==>
              st == (if NameTaken(old(db.tags), TagText, Trim(text.value), None)
                     then Conflict else Created)
    ensures st != Created ==> db.tags == old(db.tags)
    ensures st.BadRequest? ==> db.nextTag == old(db.nextTag)
    // The INSERT the unique index rejects has already drawn its id, which
    // InnoDB does not hand out again.
    ensures st == Conflict ==> db.nextTag == old(db.nextTag) + 1
    ensures st == Created ==>
              && id == old(db.nextTag) && id !in old(db.tags)
              && db.tags == old(db.tags)[id := Tag(Trim(text.value))]
              && db.nextTag == id + 1
  {
    id := 0;
    if !Present(text) {
      return BadRequest(LabelRequired), id;
    }
    var trimmed := Trim(text.value);
    if NameTaken(db.tags, TagText, trimmed, None) {
      db.nextTag := db.nextTag + 1;
      return Conflict, id;
    }
    id := db.nextTag;
    StoreNameKeepsUnique(db.tags, TagText, id, Tag(trimmed));
    db.tags := db.tags[id := Tag(trimmed)];
    db.nextTag := id + 1;
    st := Created;
  }

  /** A row of GET /:id/models: the model and the name of its category. */
  datatype TaggedModel = TaggedModel(id: int, name: string, category: string)

  /** The inner joins of GET /:id/models: the model carries the tag and its
      category exists. */
  predicate Tagged(tag: int, links: set<(int, int)>, categories: map<int, Category>,
                   id: int, m: FurnitureModel)
  {
    (id, tag) in links && m.category in categories
  }

  /** The models the joins of GET /:id/models keep. */
  function TaggedModels(tag: int, models: map<int, FurnitureModel>, links: set<(int, int)>,
                        categories: map<int, Category>): (ms: map<int, FurnitureModel>)
    ensures forall id :: id in ms <==> id in models && Tagged(tag, links, categories, id, models[id])
    ensures forall id :: id in ms ==> ms[id] == models[id]
  {
    map id | id in models && Tagged(tag, links, categories, id, models[id]) :: models[id]
  }

  /** GET /:id/models: exactly the models linked to the tag (whose category
      resolves), each once, with their category's name. */
  function ModelsForTag(tag: int, models: map<int, FurnitureModel>, links: set<(int, int)>,
                        categories: map<int, Category>): (rows: seq<TaggedModel>)
    ensures forall i :: 0 <= i < |rows| ==>
              && rows[i].id in models && (rows[i].id, tag) in links
              && models[rows[i].id].category in categories
              && rows[i].name == models[rows[i].id].name
              && rows[i].category == categories[models[rows[i].id].category].name
    ensures forall i, j :: 0 <= i < j < |rows| ==> rows[i].id != rows[j].id
  {
    var es := Entries(TaggedModels(tag, models, links, categories));
    EntriesSound(TaggedModels(tag, models, links, categories));
    seq(|es|, i requires 0 <= i < |es| =>
      TaggedModel(es[i].0, es[i].1.name, categories[es[i].1.category].name))
  }

  /** Every model linked to the tag is listed. */
  lemma {:induction false} ModelsForTagComplete(tag: int, models: map<int, FurnitureModel>,
                                                links: set<(int, int)>,
                                                categories: map<int, Category>, id: int)
    requires id in models && (id, tag) in links && models[id].category in categories
    ensures TaggedModel(id, models[id].name, categories[models[id].category].name)
            in ModelsForTag(tag, models, links, categories)
  {
    var ms := TaggedModels(tag, models, links, categories);
    EntriesComplete(ms, id);
    var i :| 0 <= i < |Entries(ms)| && Entries(ms)[i] == (id, models[id]);
    assert ModelsForTag(tag, models, links, categories)[i]
        == TaggedModel(id, models[id].name, categories[models[id].category].name);
  }

  /** A tag no model carries lists nothing. */
  lemma UnlinkedTagHasNoModels(tag: int, models: map<int, FurnitureModel>, links: set<(int, int)>,
                               categories: map<int, Category>)
    requires forall id :: id in models ==> (id, tag) !in links
    ensures ModelsForTag(tag, models, links, categories) == []
  {
    assert TaggedModels(tag, models, links, categories) == map[];
  }

  /** A tag that does not exist carries no model, so its list is empty. */
  lemma UnknownTagHasNoModels(db: Store, tag: int)
    requires db.Valid()
    requires tag !in db.tags
    ensures ModelsForTag(tag, db.models, db.furnitureTags, db.categories) == []
  {
    UnlinkedTagHasNoModels(tag, db.models, db.furnitureTags, db.categories);
  }
}
