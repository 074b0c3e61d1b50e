/** Laptop.cpp: the laptop variant and its JSON form. */
module Laptops {
  import opened Options
  import opened Json
  import opened Products

  /** The shared fields plus processor, RAM and storage (Laptop.h:8-10). */
  datatype Laptop = Laptop(info: ProductInfo, cpu: string, ramGB: int, storageGB: int)

  /** `getType()`: always "Laptop". */
  const TypeName: string := "Laptop"

  /** The nine keys `fromJson` reads, with their kinds; "type" is not among them. */
  const LaptopSchema: Schema :=
    InfoSchema + [("cpu", StringKind), ("ramGB", IntKind), ("storageGB", IntKind)]

  /** `toJson()`: the discriminator plus exactly the nine schema keys. */
  function ToJson(l: Laptop): (j: Json)
    ensures j.JObject? && j.fields.Keys == {"type", "serialNumber", "name", "brand", "price",
                                            "quantity", "categoryId", "cpu", "ramGB", "storageGB"}
    ensures GetString(j, "type") == Some("Laptop")
  {
    JObject(map[
      "type" := JString(TypeName),
      "serialNumber" := JString(l.info.serialNumber),
      "name" := JString(l.info.name),
      "brand" := JString(l.info.brand),
      "price" := JNumber(l.info.price),
      "quantity" := JInt(l.info.quantity),
      "categoryId" := JInt(l.info.categoryId),
      "cpu" := JString(l.cpu),
      "ramGB" := JInt(l.ramGB),
      "storageGB" := JInt(l.storageGB)])
  }

  /**
   * `fromJson(j)`: reads the nine keys into a new laptop, failing (None; `fromJson`
   * throws) as a whole when one of them is missing or of the wrong
   * kind. RAM and storage are taken as they are, zero or negative included.
   */
  function FromJson(j: Json): (r: Option<Laptop>)
    ensures r.Some? ==> InfoFromJson(j) == Some(r.value.info)
    ensures r.Some? ==> GetString(j, "cpu") == Some(r.value.cpu)
    ensures r.Some? ==> GetInt(j, "ramGB") == Some(r.value.ramGB) && GetInt(j, "storageGB") == Some(r.value.storageGB)
  {
    var info, cpu := InfoFromJson(j), GetString(j, "cpu");
    var ram, storage := GetInt(j, "ramGB"), GetInt(j, "storageGB");
    if info.Some? && cpu.Some? && ram.Some? && storage.Some? then
      Some(Laptop(info.value, cpu.value, ram.value, storage.value))
    else
      None
  }

  /** Writing a laptop and reading it back reproduces every field. */
  lemma {:induction false} RoundTrip(l: Laptop)
    ensures FromJson(ToJson(l)) == Some(l)
  {
  }

  /** Decoding succeeds exactly when all nine keys hold the right kind. */
  lemma {:induction false} AllOrNothing(j: Json)
    ensures FromJson(j).Some? <==> Conforms(j, LaptopSchema)
  {
    InfoFromJsonAllOrNothing(j);
    assert ("cpu", StringKind) in LaptopSchema && ("ramGB", IntKind) in LaptopSchema;
    assert ("storageGB", IntKind) in LaptopSchema;
    forall e | e in InfoSchema ensures e in LaptopSchema { }
  }

  /** Decoding looks at the nine schema keys only. */
  lemma {:induction false} OnlySchemaKeysRead(j: Json, j': Json)
    requires AgreeOn(j, j', LaptopSchema)
    ensures FromJson(j) == FromJson(j')
  {
    forall e | e in InfoSchema ensures At(j, e.0) == At(j', e.0) {
      assert e in LaptopSchema;
    }
    InfoFromJsonLocal(j, j');
    assert ("cpu", StringKind) in LaptopSchema && ("ramGB", IntKind) in LaptopSchema;
    assert ("storageGB", IntKind) in LaptopSchema;
  }

  /** Adding or overwriting a key outside the schema, "type" included, changes nothing. */
  lemma {:induction false} OtherKeysIgnored(j: Json, key: string, v: Json)
    requires j.JObject? && key !in Keys(LaptopSchema)
    ensures FromJson(JObject(j.fields[key := v])) == FromJson(j)
  {
    var j' := JObject(j.fields[key := v]);
    forall e | e in LaptopSchema ensures At(j, e.0) == At(j', e.0) {
      assert e.0 in Keys(LaptopSchema);
    }
    OnlySchemaKeysRead(j, j');
  }

  /** The discriminator is never read: any "type" value decodes the same. */
  lemma {:induction false} TypeIgnored(j: Json, v: Json)
    requires j.JObject?
    ensures FromJson(JObject(j.fields["type" := v])) == FromJson(j)
  {
    assert "type" !in Keys(LaptopSchema);
    OtherKeysIgnored(j, "type", v);
  }
}
