/** The category service: admin-only create, update, toggle and delete,
    with the slug derived from the name. */
module Categories {
  import opened Domain
  import opened Slug
  import opened Store

  predicate NameTaken(categories: map<Id, Category>, name: string) {
    exists k :: k in categories && categories[k].name == name
  }

  /** A slug that was derived from the category's name. */
  predicate SlugFollowsName(c: Category) {
    c.slug == Slugify(c.name)
  }

  /** The row `create` writes: the input, its slug, and the column default
      for `isActive`. */
  function NewCategory(name: string, description: Option<string>, image: Option<string>): (c: Category)
    ensures SlugFollowsName(c) && c.isActive
    ensures c.name == name && c.description == description && c.image == image
  {
    Category(name, Slugify(name), description, image, true)
  }

  /** `create`: 409 when a category already has the name; otherwise a new
      active row under a fresh key. */
  method CreateCategory(db: Db, name: string, description: Option<string>, image: Option<string>)
    returns (r: Outcome<(Id, Category)>)
    requires db.Valid()
    requires |name| >= 2
    modifies db`categories, db`nextId
    ensures db.Valid()
    ensures NameTaken(old(db.categories), name) ==>
      r == Err(Conflict) && db.categories == old(db.categories) && db.nextId == old(db.nextId)
    ensures !NameTaken(old(db.categories), name) ==>
      var c := NewCategory(name, description, image);
      && r == Ok((old(db.nextId), c))
      && db.categories == old(db.categories)[old(db.nextId) := c]
  {
    if NameTaken(db.categories, name) {
      return Err(Conflict);
    }
    var c := NewCategory(name, description, image);
    var id := db.NewId();
    var cs := db.categories[id := c];
    db.categories := cs;
    assert Consistent(db.profiles, db.categories, db.meals, db.orders, db.reviews, db.nextId);
    r := Ok((id, c));
  }

  /** `update`'s write: every supplied field replaces the stored one, and a
      supplied name also replaces the slug. */
  function Patch(c: Category, name: Option<string>, description: Option<string>, image: Option<string>)
    : (r: Category)
    ensures r.name == (if name.Some? then name.value else c.name)
    ensures r.slug == (if name.Some? then Slugify(name.value) else c.slug)
    ensures r.description == (if description.Some? then description else c.description)
    ensures r.image == (if image.Some? then image else c.image)
    ensures r.isActive == c.isActive
  {
    Category(
      if name.Some? then name.value else c.name,
      if name.Some? then Slugify(name.value) else c.slug,
      if description.Some? then description else c.description,
      if image.Some? then image else c.image,
      c.isActive)
  }

  /** The slug keeps following the name across updates, and an update naming
      no field changes nothing. */
  lemma PatchKeepsSlug(c: Category, name: Option<string>, description: Option<string>, image: Option<string>)
    requires SlugFollowsName(c)
    ensures SlugFollowsName(Patch(c, name, description, image))
    ensures Patch(c, None, None, None) == c
  {
  }

  /** A supplied name gives a slug without whitespace, made of [a-z0-9_-]
      when the name is ASCII; renaming to a slug keeps it as the slug. */
  lemma RenamedSlugShape(c: Category, n: string)
    ensures var s := Patch(c, Some(n), None, None).slug;
      forall i :: 0 <= i < |s| ==> IsSlugChar(s[i]) && !IsSpace(s[i])
    ensures Patch(c, Some(Slugify(n)), None, None).slug == Slugify(n)
  {
    var s := Slugify(n);
    SlugAlphabet(n);
    forall i | 0 <= i < |s| ensures !IsSpace(s[i]) {
      SlugCharIsNotSpace(s[i]);
    }
    SlugifyIsIdempotent(n);
  }

  /** `update`: 404 for an unknown category, else the patched row. */
  method UpdateCategory(db: Db, id: Id, name: Option<string>, description: Option<string>, image: Option<string>)
    returns (r: Outcome<Category>)
    requires db.Valid()
    requires name.Some? ==> |name.value| >= 2
    modifies db`categories
    ensures db.Valid()
    ensures id !in old(db.categories) ==> r == Err(NotFound(CategoryEntity)) && db.categories == old(db.categories)
    ensures id in old(db.categories) ==>
      var c := Patch(old(db.categories)[id], name, description, image);
      r == Ok(c) && db.categories == old(db.categories)[id := c]
  {
    if id !in db.categories {
      return Err(NotFound(CategoryEntity));
    }
    var c := Patch(db.categories[id], name, description, image);
    var cs := db.categories[id := c];
    db.categories := cs;
    assert Consistent(db.profiles, db.categories, db.meals, db.orders, db.reviews, db.nextId);
    r := Ok(c);
  }

  function Toggle(c: Category): (r: Category)
    ensures r.isActive == !c.isActive
    ensures r.(isActive := c.isActive) == c
  {
    c.(isActive := !c.isActive)
  }

  /** Toggling twice restores the category. */
  lemma ToggleIsAnInvolution(c: Category)
    ensures Toggle(Toggle(c)) == c
  {
  }

  /** `toggleActive`: 404, else `isActive` flips and nothing else changes. */
  method ToggleActive(db: Db, id: Id) returns (r: Outcome<Category>)
    requires db.Valid()
    modifies db`categories
    ensures db.Valid()
    ensures id !in old(db.categories) ==> r == Err(NotFound(CategoryEntity)) && db.categories == old(db.categories)
    ensures id in old(db.categories) ==>
      var c := Toggle(old(db.categories)[id]);
      r == Ok(c) && db.categories == old(db.categories)[id := c]
  {
    if id !in db.categories {
      return Err(NotFound(CategoryEntity));
    }
    var c := Toggle(db.categories[id]);
    var cs := db.categories[id := c];
    db.categories := cs;
    assert Consistent(db.profiles, db.categories, db.meals, db.orders, db.reviews, db.nextId);
    r := Ok(c);
  }

  /** The meals filed under a category: `meal.count({ where: { categoryId } })`. */
  function MealsIn(meals: map<Id, Meal>, id: Id): (ms: set<Id>)
    ensures ms <= meals.Keys
    ensures forall k :: k in ms <==> k in meals && meals[k].categoryId == id
  {
    set k | k in meals && meals[k].categoryId == id
  }

  /** `delete`: 404, then 400 with the meal count while any meal is filed
      under it, else the row goes. */
  method DeleteCategory(db: Db, id: Id) returns (r: Outcome<()>)
    requires db.Valid()
    modifies db`categories
    ensures db.Valid()
    ensures id !in old(db.categories) ==> r == Err(NotFound(CategoryEntity)) && db.categories == old(db.categories)
    ensures id in old(db.categories) && |MealsIn(db.meals, id)| > 0 ==>
      r == Err(CategoryInUse(|MealsIn(db.meals, id)|)) && db.categories == old(db.categories)
    ensures id in old(db.categories) && |MealsIn(db.meals, id)| == 0 ==>
      r == Ok(()) && db.categories == old(db.categories) - {id}
  {
    if id !in db.categories {
      return Err(NotFound(CategoryEntity));
    }
    var count := |MealsIn(db.meals, id)|;
    if count > 0 {
      return Err(CategoryInUse(count));
    }
    DeleteKeepsMealsCategorised(db.meals, db.categories, id);
    var cs := db.categories - {id};
    db.categories := cs;
    assert Consistent(db.profiles, db.categories, db.meals, db.orders, db.reviews, db.nextId);
    r := Ok(());
  }

  /** Removing a category no meal is filed under leaves every meal's
      category in place. */
  lemma DeleteKeepsMealsCategorised(meals: map<Id, Meal>, categories: map<Id, Category>, id: Id)
    requires MealsCategorised(meals, categories) && |MealsIn(meals, id)| == 0
    ensures MealsCategorised(meals, categories - {id})
  {
    assert MealsIn(meals, id) == {};
  }

  /** A category in use can never be deleted, so the guard is exactly what
      keeps every meal's category alive. */
  lemma InUseIsRefused(meals: map<Id, Meal>, categories: map<Id, Category>, id: Id, k: Id)
    requires MealsCategorised(meals, categories) && k in meals
    ensures id == meals[k].categoryId ==> |MealsIn(meals, id)| > 0
    ensures id == meals[k].categoryId ==> !MealsCategorised(meals, categories - {id})
  {
    if id == meals[k].categoryId {
      assert k in MealsIn(meals, id);
    }
  }
}
