/** DesktopComputer.cpp: the desktop variant and its JSON form. */
module Desktops {
  import opened Options
  import opened Json
  import opened Products

  /** The shared fields plus processor, graphics card and RAM (DesktopComputer.h:6-8). */
  datatype Desktop = Desktop(info: ProductInfo, cpu: string, gpu: string, ramGB: int)

  /** `getType()`: always "DesktopComputer", not the category name "Desktop". */
  const TypeName: string := "DesktopComputer"

  /** The nine keys `fromJson` reads, with their kinds; "type" is not among them. */
  const DesktopSchema: Schema :=
    InfoSchema + [("cpu", StringKind), ("gpu", StringKind), ("ramGB", IntKind)]

  /** `toJson()`: the discriminator plus exactly the nine schema keys. */
  function ToJson(d: Desktop): (j: Json)
    ensures j.JObject? && j.fields.Keys == {"type", "serialNumber", "name", "brand", "price",
                                            "quantity", "categoryId", "cpu", "gpu", "ramGB"}
    ensures GetString(j, "type") == Some("DesktopComputer")
  {
    JObject(map[
      "type" := JString(TypeName),
      "serialNumber" := JString(d.info.serialNumber),
      "name" := JString(d.info.name),
      "brand" := JString(d.info.brand),
      "price" := JNumber(d.info.price),
      "quantity" := JInt(d.info.quantity),
      "categoryId" := JInt(d.info.categoryId),
      "cpu" := JString(d.cpu),
      "gpu" := JString(d.gpu),
      "ramGB" := JInt(d.ramGB)])
  }

  /**
   * `fromJson(j)`: reads the nine keys into a new desktop, failing (None; `fromJson`
   * throws) as a whole when one of them is missing or of the wrong
   * kind. RAM is taken as it is, zero or negative included.
   */
  function FromJson(j: Json): (r: Option<Desktop>)
    ensures r.Some? ==> InfoFromJson(j) == Some(r.value.info)
    ensures r.Some? ==> GetString(j, "cpu") == Some(r.value.cpu) && GetString(j, "gpu") == Some(r.value.gpu)
    ensures r.Some? ==> GetInt(j, "ramGB") == Some(r.value.ramGB)
  {
    var info, cpu := InfoFromJson(j), GetString(j, "cpu");
    var gpu, ram := GetString(j, "gpu"), GetInt(j, "ramGB");
    if info.Some? && cpu.Some? && gpu.Some? && ram.Some? then
      Some(Desktop(info.value, cpu.value, gpu.value, ram.value))
    else
      None
  }

  /** Writing a desktop and reading it back reproduces every field. */
  lemma {:induction false} RoundTrip(d: Desktop)
    ensures FromJson(ToJson(d)) == Some(d)
  {
  }

  /** Decoding succeeds exactly when all nine keys hold the right kind. */
  lemma {:induction false} AllOrNothing(j: Json)
    ensures FromJson(j).Some? <==> Conforms(j, DesktopSchema)
  {
    InfoFromJsonAllOrNothing(j);
    assert ("cpu", StringKind) in DesktopSchema && ("gpu", StringKind) in DesktopSchema;
    assert ("ramGB", IntKind) in DesktopSchema;
    forall e | e in InfoSchema ensures e in DesktopSchema { }
  }

  /** Decoding looks at the nine schema keys only. */
  lemma {:induction false} OnlySchemaKeysRead(j: Json, j': Json)
    requires AgreeOn(j, j', DesktopSchema)
    ensures FromJson(j) == FromJson(j')
  {
    forall e | e in InfoSchema ensures At(j, e.0) == At(j', e.0) {
      assert e in DesktopSchema;
    }
    InfoFromJsonLocal(j, j');
    assert ("cpu", StringKind) in DesktopSchema && ("gpu", StringKind) in DesktopSchema;
    assert ("ramGB", IntKind) in DesktopSchema;
  }

  /** Adding or overwriting a key outside the schema, "type" included, changes nothing. */
  lemma {:induction false} OtherKeysIgnored(j: Json, key: string, v: Json)
    requires j.JObject? && key !in Keys(DesktopSchema)
    ensures FromJson(JObject(j.fields[key := v])) == FromJson(j)
  {
    var j' := JObject(j.fields[key := v]);
    forall e | e in DesktopSchema ensures At(j, e.0) == At(j', e.0) {
      assert e.0 in Keys(DesktopSchema);
    }
    OnlySchemaKeysRead(j, j');
  }

  /** The discriminator is never read: any "type" value decodes the same. */
  lemma {:induction false} TypeIgnored(j: Json, v: Json)
    requires j.JObject?
    ensures FromJson(JObject(j.fields["type" := v])) == FromJson(j)
  {
    assert "type" !in Keys(DesktopSchema);
    OtherKeysIgnored(j, "type", v);
  }
}
