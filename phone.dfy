/** Phone.cpp: the phone variant and its JSON form. */
module Phones {
  import opened Options
  import opened Json
  import opened Products

  /** The shared fields plus processor, storage and 5G capability (Phone.h:8-10). */
  datatype Phone = Phone(info: ProductInfo, cpu: string, storageGB: int, has5G: bool)

  /** `getType()`: always "Phone". */
  const TypeName: string := "Phone"

  /** The nine keys `fromJson` reads, with their kinds; "type" is not among them. */
  const PhoneSchema: Schema :=
    InfoSchema + [("cpu", StringKind), ("storageGB", IntKind), ("has5G", BoolKind)]

  /** `toJson()`: the discriminator plus exactly the nine schema keys. */
  function ToJson(ph: Phone): (j: Json)
    ensures j.JObject? && j.fields.Keys == {"type", "serialNumber", "name", "brand", "price",
                                            "quantity", "categoryId", "cpu", "storageGB", "has5G"}
    ensures GetString(j, "type") == Some("Phone")
  {
    JObject(map[
      "type" := JString(TypeName),
      "serialNumber" := JString(ph.info.serialNumber),
      "name" := JString(ph.info.name),
      "brand" := JString(ph.info.brand),
      "price" := JNumber(ph.info.price),
      "quantity" := JInt(ph.info.quantity),
      "categoryId" := JInt(ph.info.categoryId),
      "cpu" := JString(ph.cpu),
      "storageGB" := JInt(ph.storageGB),
      "has5G" := JBool(ph.has5G)])
  }

  /**
   * `fromJson(j)`: reads the nine keys into a new phone, failing (None; `fromJson`
   * throws) as a whole when one of them is missing or of the wrong
   * kind ("has5G" must be a boolean). Storage is taken as it is, zero or
   * negative included.
   */
  function FromJson(j: Json): (r: Option<Phone>)
    ensures r.Some? ==> InfoFromJson(j) == Some(r.value.info)
    ensures r.Some? ==> GetString(j, "cpu") == Some(r.value.cpu)
    ensures r.Some? ==> GetInt(j, "storageGB") == Some(r.value.storageGB) && GetBool(j, "has5G") == Some(r.value.has5G)
  {
    var info, cpu := InfoFromJson(j), GetString(j, "cpu");
    var storage, has5G := GetInt(j, "storageGB"), GetBool(j, "has5G");
    if info.Some? && cpu.Some? && storage.Some? && has5G.Some? then
      Some(Phone(info.value, cpu.value, storage.value, has5G.value))
    else
      None
  }

  /** Writing a phone and reading it back reproduces every field. */
  lemma {:induction false} RoundTrip(ph: Phone)
    ensures FromJson(ToJson(ph)) == Some(ph)
  {
  }

  /** Decoding succeeds exactly when all nine keys hold the right kind. */
  lemma {:induction false} AllOrNothing(j: Json)
    ensures FromJson(j).Some? <==> Conforms(j, PhoneSchema)
  {
    InfoFromJsonAllOrNothing(j);
    assert ("cpu", StringKind) in PhoneSchema && ("storageGB", IntKind) in PhoneSchema;
    assert ("has5G", BoolKind) in PhoneSchema;
    forall e | e in InfoSchema ensures e in PhoneSchema { }
  }

  /** Decoding looks at the nine schema keys only. */
  lemma {:induction false} OnlySchemaKeysRead(j: Json, j': Json)
    requires AgreeOn(j, j', PhoneSchema)
    ensures FromJson(j) == FromJson(j')
  {
    forall e | e in InfoSchema ensures At(j, e.0) == At(j', e.0) {
      assert e in PhoneSchema;
    }
    InfoFromJsonLocal(j, j');
    assert ("cpu", StringKind) in PhoneSchema && ("storageGB", IntKind) in PhoneSchema;
    assert ("has5G", BoolKind) in PhoneSchema;
  }

  /** Adding or overwriting a key outside the schema, "type" included, changes nothing. */
  lemma {:induction false} OtherKeysIgnored(j: Json, key: string, v: Json)
    requires j.JObject? && key !in Keys(PhoneSchema)
    ensures FromJson(JObject(j.fields[key := v])) == FromJson(j)
  {
    var j' := JObject(j.fields[key := v]);
    forall e | e in PhoneSchema ensures At(j, e.0) == At(j', e.0) {
      assert e.0 in Keys(PhoneSchema);
    }
    OnlySchemaKeysRead(j, j');
  }

  /** The discriminator is never read: any "type" value decodes the same. */
  lemma {:induction false} TypeIgnored(j: Json, v: Json)
    requires j.JObject?
    ensures FromJson(JObject(j.fields["type" := v])) == FromJson(j)
  {
    assert "type" !in Keys(PhoneSchema);
    OtherKeysIgnored(j, "type", v);
  }
}
