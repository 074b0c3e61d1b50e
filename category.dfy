/** Category.cpp: a category record and its JSON form. */
module Categories {
  import opened Options
  import opened Json

  /**
   * Identifier, display name and description (Category.h:8-10). The
   * constructor stores the three values verbatim and the getters return them,
   * which is what the datatype constructor and its destructors do.
   */
  datatype Category = Category(id: int, name: string, description: string)

  /** The three keys `fromJson` reads, with their kinds. */
  const CategorySchema: Schema := [("id", IntKind), ("name", StringKind), ("description", StringKind)]

  /** `toJson()`: exactly the keys "id", "name" and "description". */
  function ToJson(c: Category): (j: Json)
    ensures j.JObject? && j.fields.Keys == {"id", "name", "description"}
  {
    JObject(map["id" := JInt(c.id), "name" := JString(c.name), "description" := JString(c.description)])
  }

  /** `fromJson(j)`: fails as a whole when one of the three keys is missing or ill-typed. */
  function FromJson(j: Json): (r: Option<Category>)
    ensures r.Some? ==> GetInt(j, "id") == Some(r.value.id)
    ensures r.Some? ==> GetString(j, "name") == Some(r.value.name)
    ensures r.Some? ==> GetString(j, "description") == Some(r.value.description)
  {
    var id, name, description := GetInt(j, "id"), GetString(j, "name"), GetString(j, "description");
    if id.Some? && name.Some? && description.Some? then
      Some(Category(id.value, name.value, description.value))
    else
      None
  }

  /** Writing a category and reading it back reproduces all three fields. */
  lemma {:induction false} RoundTrip(c: Category)
    ensures FromJson(ToJson(c)) == Some(c)
  {
  }

  /** Decoding succeeds exactly when all three keys hold the right kind. */
  lemma {:induction false} AllOrNothing(j: Json)
    ensures FromJson(j).Some? <==> Conforms(j, CategorySchema)
  {
    if Conforms(j, CategorySchema) {
      assert HasKind(j, "id", IntKind) && HasKind(j, "name", StringKind);
      assert HasKind(j, "description", StringKind);
    }
  }

  /** Decoding looks at the three schema keys only. */
  lemma {:induction false} OnlySchemaKeysRead(j: Json, j': Json)
    requires AgreeOn(j, j', CategorySchema)
    ensures FromJson(j) == FromJson(j')
  {
    assert At(j, "id") == At(j', "id") && At(j, "name") == At(j', "name");
    assert At(j, "description") == At(j', "description");
  }
}
