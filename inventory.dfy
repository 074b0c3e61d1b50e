/**
 * Inventory.cpp: the catalog store. The fixed category registry, the ordered
 * sequence of products with lookup, filtered listings, removal, stock in and
 * out, the replace-from-document edit, and the step between the catalog and
 * its persisted document.
 *
 * The first half states what the store does as functions on sequences of
 * products; the class `Inventory` at the end performs the operations in place
 * and is proved against those functions.
 */
module Catalog {
  import opened Options
  import opened Json
  import opened Products
  import opened Categories
  import opened Devices
  import Laptops
  import Phones
  import Desktops

  // ===========================================================================
  // Categories

  /** The registry the constructor builds: 1 Laptop, 2 Phone, 3 Desktop. */
  const Registry: seq<Category> := [
    Category(1, "Laptop", "Portable computers"),
    Category(2, "Phone", "Mobile phones"),
    Category(3, "Desktop", "Desktop computers")]

  // ===========================================================================
  // Lookup by serial

  function SerialOf(d: Device): string
  {
    d.Info().serialNumber
  }

  /** `serialExists`: some product has exactly this serial; never for "". */
  predicate SerialTaken(ps: seq<Device>, serial: string)
  {
    serial != "" && exists i :: 0 <= i < |ps| && SerialOf(ps[i]) == serial
  }

  /** The position `findBySerial` stops at: the first product with the serial. */
  function Find(ps: seq<Device>, serial: string): (r: Option<nat>)
    ensures r.Some? <==> SerialTaken(ps, serial)
    ensures r.Some? ==> r.value < |ps| && SerialOf(ps[r.value]) == serial
    ensures r.Some? ==> forall i :: 0 <= i < r.value ==> SerialOf(ps[i]) != serial
  {
    if serial == "" || |ps| == 0 then None
    else if SerialOf(ps[0]) == serial then Some(0)
    else
      match Find(ps[1..], serial)
      case None => None
      case Some(k) => Some(k + 1)
  }

  /**
   * The invariant the store can keep: no two products share a non-empty
   * serial. Empty serials may repeat, since `serialExists("")` is false.
   */
  predicate DistinctSerials(ps: seq<Device>)
  {
    forall i, j :: 0 <= i < j < |ps| && SerialOf(ps[i]) != "" ==> SerialOf(ps[i]) != SerialOf(ps[j])
  }

  // ===========================================================================
  // Filtered listings

  /** `term` occurs in `s` as a contiguous, case-sensitive substring (`s.find(term) != npos`). */
  predicate IsSubstring(term: string, s: string)
  {
    exists i :: 0 <= i <= |s| - |term| && OccursAt(term, s, i)
  }

  predicate OccursAt(term: string, s: string, i: int)
  {
    0 <= i <= |s| - |term| && s[i..i + |term|] == term
  }

  /** What a listing or a removal keeps. */
  datatype Criterion =
    | NameContains(term: string)
    | InCategory(id: int)
    | SerialOtherThan(serial: string)

  predicate Matches(d: Device, c: Criterion)
  {
    match c
    case NameContains(term) => IsSubstring(term, d.Info().name)
    case InCategory(id) => d.Info().categoryId == id
    case SerialOtherThan(serial) => SerialOf(d) != serial
  }

  /** The products that match, in catalog order. */
  function Filter(ps: seq<Device>, c: Criterion): (r: seq<Device>)
    ensures |r| <= |ps|
    ensures forall d :: d in r <==> d in ps && Matches(d, c)
  {
    if |ps| == 0 then []
    else
      var last := ps[|ps| - 1];
      Filter(ps[..|ps| - 1], c) + if Matches(last, c) then [last] else []
  }

  /** Filtering is order-preserving: it distributes over concatenation. */
  lemma {:induction false} FilterAppend(a: seq<Device>, b: seq<Device>, c: Criterion)
    ensures Filter(a + b, c) == Filter(a, c) + Filter(b, c)
    decreases |b|
  {
    if |b| == 0 {
      assert a + b == a;
    } else {
      var b' := b[..|b| - 1];
      assert (a + b)[..|a + b| - 1] == a + b';
      assert (a + b)[|a + b| - 1] == b[|b| - 1];
      FilterAppend(a, b', c);
      assert b' + [b[|b| - 1]] == b;
    }
  }

  /** When every product matches, filtering returns the catalog unchanged. */
  lemma {:induction false} FilterKeepsAll(ps: seq<Device>, c: Criterion)
    requires forall i :: 0 <= i < |ps| ==> Matches(ps[i], c)
    ensures Filter(ps, c) == ps
  {
    if |ps| > 0 {
      var init := ps[..|ps| - 1];
      FilterKeepsAll(init, c);
      assert init + [ps[|ps| - 1]] == ps;
    }
  }

  /** Filtering never breaks distinct serials: its result is a subsequence. */
  lemma {:induction false} FilterKeepsDistinct(ps: seq<Device>, c: Criterion)
    requires DistinctSerials(ps)
    ensures DistinctSerials(Filter(ps, c))
  {
    if |ps| > 0 {
      var init, last := ps[..|ps| - 1], ps[|ps| - 1];
      assert DistinctSerials(init);
      FilterKeepsDistinct(init, c);
      var f := Filter(init, c);
      if Matches(last, c) {
        forall i | 0 <= i < |f| && SerialOf(f[i]) != ""
          ensures SerialOf(f[i]) != SerialOf(last)
        {
          assert f[i] in init;
          var k :| 0 <= k < |init| && init[k] == f[i];
          assert ps[k] == f[i];
        }
        assert Filter(ps, c) == f + [last];
      }
    }
  }

  /** After removing a serial, no product carries it any longer. */
  lemma {:induction false} RemovedSerialIsGone(ps: seq<Device>, serial: string)
    ensures !SerialTaken(Filter(ps, SerialOtherThan(serial)), serial)
    ensures SerialTaken(ps, serial) ==> |Filter(ps, SerialOtherThan(serial))| < |ps|
    decreases |ps|
  {
    var r := Filter(ps, SerialOtherThan(serial));
    if SerialTaken(ps, serial) {
      var init, last := ps[..|ps| - 1], ps[|ps| - 1];
      if SerialOf(last) == serial {
        assert r == Filter(init, SerialOtherThan(serial));
      } else {
        var i :| 0 <= i < |ps| && SerialOf(ps[i]) == serial;
        assert init[i] == ps[i];
        RemovedSerialIsGone(init, serial);
      }
    }
    forall i | 0 <= i < |r| ensures SerialOf(r[i]) != serial {
      assert r[i] in r;
    }
  }

  // ===========================================================================
  // Insertion and in-place replacement

  /** `addProduct` of a product whose serial is not taken keeps the invariant. */
  lemma {:induction false} AppendKeepsDistinct(ps: seq<Device>, d: Device)
    requires DistinctSerials(ps) && !SerialTaken(ps, SerialOf(d))
    ensures DistinctSerials(ps + [d])
  {
    var ps' := ps + [d];
    forall i, j | 0 <= i < j < |ps'| && SerialOf(ps'[i]) != ""
      ensures SerialOf(ps'[i]) != SerialOf(ps'[j])
    {
      if j == |ps| {
        assert ps'[i] == ps[i];
      }
    }
  }

  /**
   * Replacing the product at `k` keeps the invariant when the new serial is
   * empty, is the serial already at `k`, or is carried by no product.
   */
  lemma {:induction false} ReplaceKeepsDistinct(ps: seq<Device>, k: nat, d: Device)
    requires DistinctSerials(ps) && k < |ps|
    requires SerialOf(d) == "" || SerialOf(d) == SerialOf(ps[k]) || !SerialTaken(ps, SerialOf(d))
    ensures DistinctSerials(ps[k := d])
  {
    var ps' := ps[k := d];
    forall i, j | 0 <= i < j < |ps'| && SerialOf(ps'[i]) != ""
      ensures SerialOf(ps'[i]) != SerialOf(ps'[j])
    {
      if i == k {
        assert SerialOf(ps[j]) != SerialOf(ps[k]) || SerialOf(ps[k]) == "";
      } else if j == k {
        assert SerialOf(ps[i]) != SerialOf(ps[k]);
      }
    }
  }

  // ===========================================================================
  // Variant dispatch and the edit

  /** The dispatch on the type name in `updateProductFromJson` and `loadFromFile`. */
  function Decode(typeName: string, j: Json): (r: Option<Device>)
    ensures r.Some? ==> r.value.TypeName() == typeName
    ensures r.Some? ==> InfoFromJson(j) == Some(r.value.Info())
    ensures r.Some? && r.value.LaptopItem? ==> Laptops.FromJson(j) == Some(r.value.laptop)
    ensures r.Some? && r.value.PhoneItem? ==> Phones.FromJson(j) == Some(r.value.phone)
    ensures r.Some? && r.value.DesktopItem? ==> Desktops.FromJson(j) == Some(r.value.desktop)
  {
    if typeName == Laptops.TypeName then
      match Laptops.FromJson(j)
      case Some(l) => Some(LaptopItem(l))
      case None => None
    else if typeName == Phones.TypeName then
      match Phones.FromJson(j)
      case Some(p) => Some(PhoneItem(p))
      case None => None
    else if typeName == Desktops.TypeName then
      match Desktops.FromJson(j)
      case Some(d) => Some(DesktopItem(d))
      case None => None
    else
      None
  }

  /**
   * Decoding by name succeeds exactly when the name is one of the three
   * types and the document holds every key of that type's schema.
   */
  lemma {:induction false} DecodeAllOrNothing(typeName: string, j: Json)
    ensures Decode(typeName, j).Some? <==>
              || (typeName == "Laptop" && Conforms(j, Laptops.LaptopSchema))
              || (typeName == "Phone" && Conforms(j, Phones.PhoneSchema))
              || (typeName == "DesktopComputer" && Conforms(j, Desktops.DesktopSchema))
  {
    Laptops.AllOrNothing(j);
    Phones.AllOrNothing(j);
    Desktops.AllOrNothing(j);
  }

  /** A product's document names its type, and decoding it by that name gives the product back. */
  lemma {:induction false} EncodeDecode(d: Device)
    ensures GetString(d.ToJson(), "type") == Some(d.TypeName())
    ensures Decode(d.TypeName(), d.ToJson()) == Some(d)
  {
    match d
    case LaptopItem(l) => Laptops.RoundTrip(l);
    case PhoneItem(p) => Phones.RoundTrip(p);
    case DesktopItem(x) => Desktops.RoundTrip(x);
  }

  /** The keys `updateProductFromJson` accepts for the new serial and the type, in order. */
  const SerialAliases: seq<string> := ["serialNumber", "serial", "SerialNumber", "Serial"]
  const TypeAliases: seq<string> := ["type", "Type"]

  /**
   * `getStringAny`: the value of the first key that holds a string (which may
   * be empty), or "" when none does.
   */
  function FirstString(j: Json, keys: seq<string>): (r: string)
    ensures forall i :: 0 <= i < |keys| && GetString(j, keys[i]).Some? &&
                        (forall m :: 0 <= m < i ==> GetString(j, keys[m]).None?)
                        ==> r == GetString(j, keys[i]).value
    ensures (forall i :: 0 <= i < |keys| ==> GetString(j, keys[i]).None?) ==> r == ""
  {
    if |keys| == 0 then ""
    else
      match GetString(j, keys[0])
      case Some(s) => s
      case None => FirstString(j, keys[1..])
  }

  /**
   * The outcome of `updateProductFromJson(cur, doc)` on catalog `ps`: the
   * position replaced and the product put there, or None when the call
   * returns false. The new product is decoded from `doc` alone; nothing of the
   * old product is merged into it.
   */
  function ApplyUpdate(ps: seq<Device>, cur: string, doc: Json): (r: Option<(nat, Device)>)
    ensures r.Some? ==> Find(ps, cur) == Some(r.value.0)
    ensures r.Some? ==> Decode(r.value.1.TypeName(), doc) == Some(r.value.1)
  {
    match Find(ps, cur)
    case None => None
    case Some(k) =>
      var given := FirstString(doc, SerialAliases);
      var newSerial := if given == "" then SerialOf(ps[k]) else given;
      if newSerial != cur && SerialTaken(ps, newSerial) then None
      else
        var named := FirstString(doc, TypeAliases);
        var typeName := if named == "" then ps[k].TypeName() else named;
        match Decode(typeName, doc)
        case None => None
        case Some(d) => Some((k, d))
  }

  /**
   * The ways the edit fails, each leaving the catalog as it was: an unknown
   * current serial, a taken new serial, an unknown type name, or a document
   * the chosen type cannot decode (a shared key or one of the type's own keys
   * missing or of the wrong kind; `DecodeAllOrNothing` says which keys).
   */
  lemma {:induction false} UpdateFailures(ps: seq<Device>, cur: string, doc: Json)
    ensures !SerialTaken(ps, cur) ==> ApplyUpdate(ps, cur, doc).None?
    ensures var given := FirstString(doc, SerialAliases);
            given != "" && given != cur && SerialTaken(ps, given) ==> ApplyUpdate(ps, cur, doc).None?
    ensures var named := FirstString(doc, TypeAliases);
            named != "" && named != "Laptop" && named != "Phone" && named != "DesktopComputer"
            ==> ApplyUpdate(ps, cur, doc).None?
    ensures !Conforms(doc, InfoSchema) ==> ApplyUpdate(ps, cur, doc).None?
    ensures Find(ps, cur).Some? ==>
              var named := FirstString(doc, TypeAliases);
              var typeName := if named == "" then ps[Find(ps, cur).value].TypeName() else named;
              Decode(typeName, doc).None? ==> ApplyUpdate(ps, cur, doc).None?
  {
    InfoFromJsonAllOrNothing(doc);
  }

  /**
   * The edit succeeds exactly when the current serial is found, the new
   * serial (when one is given) is the current one or untaken, and the chosen
   * type (the named one, else the current product's) decodes the document.
   */
  lemma {:induction false} UpdateSucceedsIff(ps: seq<Device>, cur: string, doc: Json)
    ensures ApplyUpdate(ps, cur, doc).Some? <==>
              && Find(ps, cur).Some?
              && (var given := FirstString(doc, SerialAliases);
                  !(given != "" && given != cur && SerialTaken(ps, given)))
              && (var named := FirstString(doc, TypeAliases);
                  var typeName := if named == "" then ps[Find(ps, cur).value].TypeName() else named;
                  Decode(typeName, doc).Some?)
  {
    match Find(ps, cur)
    case None =>
    case Some(k) =>
      assert SerialOf(ps[k]) == cur;
  }

  /**
   * A successful edit replaces the first product carrying `cur` with a
   * product whose shared fields are all read from `doc`, of the type `doc`
   * names or else of the old product's type.
   */
  lemma {:induction false} UpdateRebuildsFromDocument(ps: seq<Device>, cur: string, doc: Json)
    requires ApplyUpdate(ps, cur, doc).Some?
    ensures var (k, d) := ApplyUpdate(ps, cur, doc).value;
            && Find(ps, cur) == Some(k)
            && InfoFromJson(doc) == Some(d.Info())
            && Decode(d.TypeName(), doc) == Some(d)
            && d.TypeName() == (if FirstString(doc, TypeAliases) == "" then ps[k].TypeName()
                                else FirstString(doc, TypeAliases))
  {
  }

  /**
   * The edit keeps distinct non-empty serials. The duplicate check looks at
   * the first string among the serial aliases, while the product is built
   * from "serialNumber"; a successful decode means "serialNumber" is a string
   * and so is that first alias, so the two agree whenever it is non-empty.
   */
  lemma {:induction false} UpdateKeepsDistinct(ps: seq<Device>, cur: string, doc: Json)
    requires DistinctSerials(ps) && ApplyUpdate(ps, cur, doc).Some?
    ensures var (k, d) := ApplyUpdate(ps, cur, doc).value;
            DistinctSerials(ps[k := d])
  {
    var (k, d) := ApplyUpdate(ps, cur, doc).value;
    assert GetString(doc, "serialNumber") == Some(SerialOf(d));
    assert SerialAliases[0] == "serialNumber";
    var given := FirstString(doc, SerialAliases);
    assert given == SerialOf(d);
    ReplaceKeepsDistinct(ps, k, d);
  }

  /**
   * The fallback to the current serial applies to the check only: a
   * document whose "serialNumber" is "" is accepted, and the product stored
   * has an empty serial, which no later lookup can reach.
   */
  lemma EmptySerialAccepted()
    ensures var info := ProductInfo("SN1", "Book", "Acme", 999.0, 5, 1);
            var old_ := LaptopItem(Laptops.Laptop(info, "i7", 16, 512));
            var doc := JObject(old_.ToJson().fields["serialNumber" := JString("")]);
            var result := ApplyUpdate([old_], "SN1", doc);
            && result.Some?
            && SerialOf(result.value.1) == ""
            && Find([result.value.1], "SN1").None?
  {
    var info := ProductInfo("SN1", "Book", "Acme", 999.0, 5, 1);
    var l := Laptops.Laptop(info, "i7", 16, 512);
    var doc := JObject(LaptopItem(l).ToJson().fields["serialNumber" := JString("")]);
    assert FirstString(doc, SerialAliases) == "";
    assert FirstString(doc, TypeAliases) == "Laptop";
    assert Laptops.FromJson(doc) == Some(l.(info := info.(serialNumber := "")));
  }

  /**
   * Switching a laptop to a phone: the caller's document is the laptop's
   * document with "type" set to "Phone" and the phone's own fields added; the
   * edit replaces the laptop by a phone with the same shared fields and
   * processor, and the laptop's RAM is gone.
   */
  lemma {:induction false} VariantSwitch(ps: seq<Device>, k: nat, storage: int, has5G: bool)
    requires k < |ps| && ps[k].LaptopItem? && Find(ps, SerialOf(ps[k])) == Some(k)
    ensures var l := ps[k].laptop;
            ApplyUpdate(ps, SerialOf(ps[k]), SwitchToPhone(l, storage, has5G))
              == Some((k, PhoneItem(Phones.Phone(l.info, l.cpu, storage, has5G))))
  {
    SwitchToPhoneDecodes(ps[k].laptop, storage, has5G);
  }

  /** A laptop's document with "type" set to "Phone" and the phone's own fields added. */
  function SwitchToPhone(l: Laptops.Laptop, storage: int, has5G: bool): Json
  {
    JObject(Laptops.ToJson(l).fields["type" := JString("Phone")]
                                    ["storageGB" := JInt(storage)]
                                    ["has5G" := JBool(has5G)])
  }

  lemma {:induction false} SwitchToPhoneDecodes(l: Laptops.Laptop, storage: int, has5G: bool)
    ensures var doc := SwitchToPhone(l, storage, has5G);
            && FirstString(doc, SerialAliases) == l.info.serialNumber
            && FirstString(doc, TypeAliases) == "Phone"
            && Phones.FromJson(doc) == Some(Phones.Phone(l.info, l.cpu, storage, has5G))
  {
    var doc := SwitchToPhone(l, storage, has5G);
    var m := doc.fields;
    assert m["serialNumber"] == JString(l.info.serialNumber) && m["name"] == JString(l.info.name);
    assert m["brand"] == JString(l.info.brand) && m["price"] == JNumber(l.info.price);
    assert m["quantity"] == JInt(l.info.quantity) && m["categoryId"] == JInt(l.info.categoryId);
    assert m["cpu"] == JString(l.cpu) && m["type"] == JString("Phone");
    assert m["storageGB"] == JInt(storage) && m["has5G"] == JBool(has5G);
    assert InfoFromJson(doc) == Some(l.info);
  }

  // ===========================================================================
  // Load and save

  /**
   * One array entry on load: skipped (None) when it has no "type", when
   * "type" is not a string (the read throws), when the name is unknown, or
   * when the variant's `fromJson` fails.
   */
  function DecodeEntry(item: Json): (r: Option<Device>)
    ensures r.Some? ==> GetString(item, "type") == Some(r.value.TypeName())
    ensures r.Some? ==> Decode(r.value.TypeName(), item) == r
    ensures GetString(item, "type").None? ==> r.None?
    ensures GetString(item, "type").Some? ==> r == Decode(GetString(item, "type").value, item)
  {
    if !Contains(item, "type") then None
    else
      match GetString(item, "type")
      case None => None
      case Some(t) => Decode(t, item)
  }

  /** The products a "products" array yields, in order, skipping bad entries. */
  function DecodeEntries(items: seq<Json>): (r: seq<Device>)
    ensures |r| <= |items|
  {
    if |items| == 0 then []
    else
      var last := items[|items| - 1];
      DecodeEntries(items[..|items| - 1]) + match DecodeEntry(last) case Some(d) => [d] case None => []
  }

  /**
   * Loading keeps exactly the entries `DecodeEntry` accepts: every product
   * loaded comes from some entry, and every decodable entry is loaded.
   */
  lemma {:induction false} LoadKeepsDecodable(items: seq<Json>)
    ensures forall d :: d in DecodeEntries(items) <==>
              exists i :: 0 <= i < |items| && DecodeEntry(items[i]) == Some(d)
    decreases |items|
  {
    if |items| > 0 {
      var init := items[..|items| - 1];
      LoadKeepsDecodable(init);
      var last := items[|items| - 1];
      assert DecodeEntries(items) ==
               DecodeEntries(init) + match DecodeEntry(last) case Some(x) => [x] case None => [];
      forall d | d in DecodeEntries(items)
        ensures exists i :: 0 <= i < |items| && DecodeEntry(items[i]) == Some(d)
      {
        if d in DecodeEntries(init) {
          var i :| 0 <= i < |init| && DecodeEntry(init[i]) == Some(d);
          assert items[i] == init[i];
        } else {
          assert DecodeEntry(last) == Some(d);
        }
      }
      forall d, i | 0 <= i < |items| && DecodeEntry(items[i]) == Some(d)
        ensures d in DecodeEntries(items)
      {
        if i < |items| - 1 {
          assert init[i] == items[i];
        }
      }
    }
  }

  /** Loading keeps file order: two runs of entries load as their two results, one after the other. */
  lemma {:induction false} DecodeEntriesAppend(a: seq<Json>, b: seq<Json>)
    ensures DecodeEntries(a + b) == DecodeEntries(a) + DecodeEntries(b)
    decreases |b|
  {
    if |b| > 0 {
      var b' := b[..|b| - 1];
      assert (a + b)[..|a + b| - 1] == a + b';
      assert (a + b)[|a + b| - 1] == b[|b| - 1];
      DecodeEntriesAppend(a, b');
    } else {
      assert a + b == a;
    }
  }

  lemma DecodeEntriesStep(items: seq<Json>, i: nat)
    requires i < |items|
    ensures DecodeEntries(items[..i + 1]) ==
              DecodeEntries(items[..i]) + match DecodeEntry(items[i]) case Some(d) => [d] case None => []
  {
    assert items[..i + 1][..i] == items[..i];
  }

  /** The catalog a parsed document loads to: empty unless "products" is an array. */
  function Loaded(doc: Json): (r: seq<Device>)
    ensures !(Contains(doc, "products") && doc.fields["products"].JArray?) ==> r == []
    ensures Contains(doc, "products") && doc.fields["products"].JArray? ==>
              r == DecodeEntries(doc.fields["products"].items)
  {
    match At(doc, "products")
    case Some(JArray(items)) => DecodeEntries(items)
    case _ => []
  }

  /** The document `saveToFile` writes: each product's `toJson`, in catalog order. */
  function Saved(ps: seq<Device>): (doc: Json)
    ensures doc.JObject? && doc.fields.Keys == {"products"}
    ensures doc.fields["products"].JArray? && |doc.fields["products"].items| == |ps|
    ensures forall i :: 0 <= i < |ps| ==> doc.fields["products"].items[i] == ps[i].ToJson()
  {
    JObject(map["products" := JArray(seq(|ps|, i requires 0 <= i < |ps| => ps[i].ToJson()))])
  }

  /** Saving and loading again gives back the same catalog. */
  lemma {:induction false} LoadSaveRoundTrip(ps: seq<Device>)
    ensures Loaded(Saved(ps)) == ps
  {
    var items := Saved(ps).fields["products"].items;
    forall i | 0 <= i < |ps| ensures DecodeEntry(items[i]) == Some(ps[i]) {
      DecodeEntryOfEncoded(ps[i]);
    }
    DecodeEachEntry(ps, items);
  }

  /** Entries that each decode to the matching product load as exactly those products. */
  lemma {:induction false} DecodeEachEntry(ps: seq<Device>, items: seq<Json>)
    requires |items| == |ps|
    requires forall i :: 0 <= i < |ps| ==> DecodeEntry(items[i]) == Some(ps[i])
    ensures DecodeEntries(items) == ps
    decreases |ps|
  {
    if |ps| > 0 {
      var n := |ps| - 1;
      var init := items[..n];
      assert items == init + [items[n]];
      DecodeEachEntry(ps[..n], init);
      DecodeEntriesSnoc(init, items[n], ps[n]);
      assert ps[..n] + [ps[n]] == ps;
    }
  }

  lemma {:induction false} DecodeEntriesSkip(items: seq<Json>, item: Json)
    requires DecodeEntry(item).None?
    ensures DecodeEntries(items + [item]) == DecodeEntries(items)
  {
    assert (items + [item])[..|items|] == items;
  }

  lemma {:induction false} DecodeEntriesSnoc(items: seq<Json>, item: Json, d: Device)
    requires DecodeEntry(item) == Some(d)
    ensures DecodeEntries(items + [item]) == DecodeEntries(items) + [d]
  {
    assert (items + [item])[..|items|] == items;
  }

  lemma {:induction false} DecodeEntryOfEncoded(d: Device)
    ensures DecodeEntry(d.ToJson()) == Some(d)
  {
    EncodeDecode(d);
    assert Contains(d.ToJson(), "type");
  }

  /** A file holding a valid laptop and an entry without "type" load as the laptop alone. */
  lemma LoadSkipsEntryWithoutType()
    ensures var l := LaptopItem(Laptops.Laptop(ProductInfo("SN1", "Book", "Acme", 999.0, 5, 1), "i7", 16, 512));
            var untyped := JObject(l.ToJson().fields - {"type"});
            Loaded(JObject(map["products" := JArray([l.ToJson(), untyped])])) == [l]
  {
    var l := LaptopItem(Laptops.Laptop(ProductInfo("SN1", "Book", "Acme", 999.0, 5, 1), "i7", 16, 512));
    var untyped := JObject(l.ToJson().fields - {"type"});
    DecodeEntryOfEncoded(l);
    DecodeEntriesSnoc([], l.ToJson(), l);
    assert [] + [l.ToJson()] == [l.ToJson()];
    assert !Contains(untyped, "type");
    DecodeEntriesSkip([l.ToJson()], untyped);
    assert [l.ToJson()] + [untyped] == [l.ToJson(), untyped];
  }

  /** Loading does not check serials: the same entry twice loads twice. */
  lemma LoadMayDuplicate()
    ensures var l := LaptopItem(Laptops.Laptop(ProductInfo("SN1", "Book", "Acme", 999.0, 5, 1), "i7", 16, 512));
            var ps := Loaded(JObject(map["products" := JArray([l.ToJson(), l.ToJson()])]));
            ps == [l, l] && !DistinctSerials(ps)
  {
    var l := LaptopItem(Laptops.Laptop(ProductInfo("SN1", "Book", "Acme", 999.0, 5, 1), "i7", 16, 512));
    var items := [l.ToJson(), l.ToJson()];
    var ps := [l, l];
    DecodeEntryOfEncoded(l);
    DecodeEachEntry(ps, items);
    assert SerialOf(ps[0]) == SerialOf(ps[1]) == "SN1";
  }

  // ===========================================================================
  // The store

  class Inventory {
    /** The category registry, fixed by the constructor. */
    const categories: seq<Category>
    /** The products, in insertion order. */
    var products: seq<Device>

    ghost predicate Valid()
    {
      categories == Registry
    }

    /** Builds the three categories; the catalog starts empty. */
    constructor ()
      ensures Valid() && products == []
    {
      categories := [
        Category(1, "Laptop", "Portable computers"),
        Category(2, "Phone", "Mobile phones"),
        Category(3, "Desktop", "Desktop computers")];
      products := [];
    }

    /** `getCategoryById`: the first category with the id, or None. */
    method GetCategoryById(id: int) returns (r: Option<Category>)
      ensures r.Some? ==> exists k :: 0 <= k < |categories| && categories[k] == r.value && r.value.id == id &&
                                     forall m :: 0 <= m < k ==> categories[m].id != id
      ensures r.None? ==> forall k :: 0 <= k < |categories| ==> categories[k].id != id
    {
      var i := 0;
      while i < |categories|
        invariant 0 <= i <= |categories|
        invariant forall m :: 0 <= m < i ==> categories[m].id != id
      {
        if categories[i].id == id {
          return Some(categories[i]);
        }
        i := i + 1;
      }
      return None;
    }

    /** `serialExists`. */
    method SerialExists(serial: string) returns (b: bool)
      ensures b == SerialTaken(products, serial)
    {
      if serial == "" {
        return false;
      }
      var i := 0;
      while i < |products|
        invariant 0 <= i <= |products|
        invariant forall m :: 0 <= m < i ==> SerialOf(products[m]) != serial
      {
        if SerialOf(products[i]) == serial {
          return true;
        }
        i := i + 1;
      }
      return false;
    }

    /** The scan of `findBySerial`, returning the position it stops at. */
    method Locate(serial: string) returns (r: Option<nat>)
      ensures r == Find(products, serial)
    {
      if serial == "" {
        return None;
      }
      var i := 0;
      while i < |products|
        invariant 0 <= i <= |products|
        invariant forall m :: 0 <= m < i ==> SerialOf(products[m]) != serial
      {
        if SerialOf(products[i]) == serial {
          return Some(i);
        }
        i := i + 1;
      }
      return None;
    }

    /** `findBySerial`: the first product with the serial; None for "" or no match. */
    method FindBySerial(serial: string) returns (r: Option<Device>)
      ensures r.Some? <==> SerialTaken(products, serial)
      ensures r.Some? ==> r.value == products[Find(products, serial).value]
    {
      var k := Locate(serial);
      if k.None? {
        return None;
      }
      return Some(products[k.value]);
    }

    /** `getAllProducts`: a copy of the whole catalog, in order. */
    function AllProducts(): (r: seq<Device>)
      reads this
      ensures r == products
    {
      products
    }

    /** `addProduct`: appends unless the product is null or its serial is taken. */
    method AddProduct(product: Option<Device>)
      modifies this
      ensures products == if product.Some? && !SerialTaken(old(products), SerialOf(product.value))
                          then old(products) + [product.value]
                          else old(products)
      ensures DistinctSerials(old(products)) ==> DistinctSerials(products)
    {
      if product.None? {
        return;
      }
      var taken := SerialExists(SerialOf(product.value));
      if taken {
        return;
      }
      if DistinctSerials(products) {
        AppendKeepsDistinct(products, product.value);
      }
      products := products + [product.value];
    }

    /** `searchByName`: the products whose name contains the term; none for "". */
    method SearchByName(term: string) returns (r: seq<Device>)
      ensures r == if term == "" then [] else Filter(products, NameContains(term))
    {
      r := [];
      if term == "" {
        return;
      }
      var i := 0;
      while i < |products|
        invariant 0 <= i <= |products|
        invariant r == Filter(products[..i], NameContains(term))
      {
        assert products[..i + 1][..i] == products[..i];
        if IsSubstring(term, products[i].Info().name) {
          r := r + [products[i]];
        }
        i := i + 1;
      }
      assert products[..i] == products;
    }

    /** `listByCategory`: the products of a registered category; none for an unknown id. */
    method ListByCategory(categoryId: int) returns (r: seq<Device>)
      requires Valid()
      ensures r == if 1 <= categoryId <= 3 then Filter(products, InCategory(categoryId)) else []
    {
      r := [];
      assert 1 <= categoryId <= 3 ==> categories[categoryId - 1].id == categoryId;
      var category := GetCategoryById(categoryId);
      if category.None? {
        return;
      }
      var i := 0;
      while i < |products|
        invariant 0 <= i <= |products|
        invariant r == Filter(products[..i], InCategory(categoryId))
      {
        assert products[..i + 1][..i] == products[..i];
        if products[i].Info().categoryId == categoryId {
          r := r + [products[i]];
        }
        i := i + 1;
      }
      assert products[..i] == products;
    }

    /**
     * `removeProductBySerial`: removes every product with the serial, keeping
     * the others in order; true iff at least one was removed.
     */
    method RemoveProductBySerial(serial: string) returns (ok: bool)
      modifies this
      ensures ok == SerialTaken(old(products), serial)
      ensures products == if ok then Filter(old(products), SerialOtherThan(serial)) else old(products)
      ensures serial != "" ==> products == Filter(old(products), SerialOtherThan(serial))
      ensures DistinctSerials(old(products)) ==> DistinctSerials(products)
    {
      if serial == "" {
        return false;
      }
      var ps := products;
      var kept: seq<Device> := [];
      var found := false;
      var i := 0;
      while i < |ps|
        invariant 0 <= i <= |ps|
        invariant kept == Filter(ps[..i], SerialOtherThan(serial))
        invariant found <==> exists m :: 0 <= m < i && SerialOf(ps[m]) == serial
      {
        assert ps[..i + 1][..i] == ps[..i];
        if SerialOf(ps[i]) == serial {
          found := true;
        } else {
          kept := kept + [ps[i]];
        }
        i := i + 1;
      }
      assert ps[..i] == ps;
      if !found {
        assert forall m :: 0 <= m < |ps| ==> Matches(ps[m], SerialOtherThan(serial));
        FilterKeepsAll(ps, SerialOtherThan(serial));
        return false;
      }
      if DistinctSerials(ps) {
        FilterKeepsDistinct(ps, SerialOtherThan(serial));
      }
      products := kept;
      return true;
    }

    /**
     * `updateProductFromJson`: replaces the product carrying `currentSerial`
     * by the product decoded from `updated`, at the same position; on any
     * failure returns false and changes nothing.
     */
    method UpdateProductFromJson(currentSerial: string, updated: Json) returns (ok: bool)
      modifies this
      ensures ok == ApplyUpdate(old(products), currentSerial, updated).Some?
      ensures products == if ok then old(products)[ApplyUpdate(old(products), currentSerial, updated).value.0
                                                   := ApplyUpdate(old(products), currentSerial, updated).value.1]
                          else old(products)
      ensures DistinctSerials(old(products)) ==> DistinctSerials(products)
    {
      var k := Locate(currentSerial);
      if k.None? {
        return false;
      }
      var newSerial := GetStringAny(updated, SerialAliases);
      if newSerial == "" {
        newSerial := SerialOf(products[k.value]);
      }
      var taken := SerialExists(newSerial);
      if newSerial != currentSerial && taken {
        return false;
      }
      var typeName := GetStringAny(updated, TypeAliases);
      if typeName == "" {
        typeName := products[k.value].TypeName();
      }
      var decoded := Decode(typeName, updated);
      if decoded.None? {
        return false;
      }
      if DistinctSerials(products) {
        UpdateKeepsDistinct(products, currentSerial, updated);
      }
      products := products[k.value := decoded.value];
      return true;
    }

    /** `canStockIn`: the serial resolves and the amount is positive. */
    method CanStockIn(serial: string, amount: int) returns (ok: bool)
      ensures ok == (amount > 0 && SerialTaken(products, serial))
    {
      if serial == "" || amount <= 0 {
        return false;
      }
      var product := FindBySerial(serial);
      return product.Some?;
    }

    /** `canStockOut`: as `canStockIn`, and the amount does not exceed the quantity. */
    method CanStockOut(serial: string, amount: int) returns (ok: bool)
      ensures ok == (amount > 0 && SerialTaken(products, serial) &&
                     amount <= products[Find(products, serial).value].Info().quantity)
    {
      if serial == "" || amount <= 0 {
        return false;
      }
      var product := FindBySerial(serial);
      if product.None? {
        return false;
      }
      return amount <= product.value.Info().quantity;
    }

    /** `stockIn`: increases the first matching product's quantity; nothing else changes. */
    method StockIn(serial: string, amount: int) returns (ok: bool)
      modifies this
      ensures ok == (amount > 0 && SerialTaken(old(products), serial))
      ensures products == if ok then
                            var k := Find(old(products), serial).value;
                            old(products)[k := old(products)[k].WithInfo(Increased(old(products)[k].Info(), amount))]
                          else old(products)
      ensures DistinctSerials(old(products)) ==> DistinctSerials(products)
    {
      ok := CanStockIn(serial, amount);
      if !ok {
        return;
      }
      var k := Locate(serial);
      var d := products[k.value];
      var d' := d.WithInfo(Increased(d.Info(), amount));
      if DistinctSerials(products) {
        ReplaceKeepsDistinct(products, k.value, d');
      }
      products := products[k.value := d'];
    }

    /** `stockOut`: decreases the first matching product's quantity when it has enough. */
    method StockOut(serial: string, amount: int) returns (ok: bool)
      modifies this
      ensures ok == (amount > 0 && SerialTaken(old(products), serial) &&
                     TryDecrease(old(products)[Find(old(products), serial).value].Info(), amount).Some?)
      ensures products == if ok then
                            var k := Find(old(products), serial).value;
                            old(products)[k := old(products)[k].WithInfo(
                                                 TryDecrease(old(products)[k].Info(), amount).value)]
                          else old(products)
      ensures DistinctSerials(old(products)) ==> DistinctSerials(products)
    {
      ok := CanStockOut(serial, amount);
      if !ok {
        return;
      }
      var k := Locate(serial);
      var d := products[k.value];
      var decreased := TryDecrease(d.Info(), amount);
      ok := decreased.Some?;
      var d' := d.WithInfo(decreased.value);
      if DistinctSerials(products) {
        ReplaceKeepsDistinct(products, k.value, d');
      }
      products := products[k.value := d'];
    }

    /**
     * The part of `loadFromFile` after parsing. `parsed` is None when the file
     * cannot be opened or parsed: false, nothing changes. Otherwise the
     * catalog is cleared and refilled from the "products" array.
     */
    method LoadFromDocument(parsed: Option<Json>) returns (ok: bool)
      modifies this
      ensures ok == parsed.Some?
      ensures products == if ok then Loaded(parsed.value) else old(products)
    {
      if parsed.None? {
        return false;
      }
      var doc := parsed.value;
      products := [];
      if !Contains(doc, "products") || !doc.fields["products"].JArray? {
        return true;
      }
      var items := doc.fields["products"].items;
      assert Loaded(doc) == DecodeEntries(items);
      var i := 0;
      while i < |items|
        invariant 0 <= i <= |items|
        invariant products == DecodeEntries(items[..i])
      {
        DecodeEntriesStep(items, i);
        var item := items[i];
        if Contains(item, "type") {
          var typeName := GetString(item, "type");
          if typeName.Some? {
            var decoded := Decode(typeName.value, item);
            if decoded.Some? {
              products := products + [decoded.value];
            }
          }
        }
        i := i + 1;
      }
      assert items[..i] == items;
      return true;
    }

    /** The part of `saveToFile` before writing: the document of the whole catalog. */
    method SaveToDocument() returns (doc: Json)
      ensures doc == Saved(products)
    {
      var items: seq<Json> := [];
      var i := 0;
      while i < |products|
        invariant 0 <= i <= |products|
        invariant |items| == i
        invariant forall m :: 0 <= m < i ==> items[m] == products[m].ToJson()
      {
        items := items + [products[i].ToJson()];
        i := i + 1;
      }
      doc := JObject(map["products" := JArray(items)]);
      assert Saved(products).fields["products"].items == items;
    }
  }

  /** `getStringAny`: scans the keys in order for the first string value. */
  method GetStringAny(j: Json, keys: seq<string>) returns (r: string)
    ensures r == FirstString(j, keys)
  {
    var i := 0;
    while i < |keys|
      invariant 0 <= i <= |keys|
      invariant FirstString(j, keys) == FirstString(j, keys[i..])
    {
      if Contains(j, keys[i]) && j.fields[keys[i]].JString? {
        return j.fields[keys[i]].s;
      }
      assert keys[i..][1..] == keys[i + 1..];
      i := i + 1;
    }
    return "";
  }

  /**
   * Overselling is refused and removal is final: of 5 units 3 can be sold but
   * then not 10, and a removed serial cannot be removed a second time.
   */
  method OversellRefusedRemovalFinal()
  {
    var inventory := new Inventory();
    var laptop := LaptopItem(Laptops.Laptop(ProductInfo("SN1", "Book", "Acme", 999.0, 5, 1), "i7", 16, 512));
    inventory.AddProduct(Some(laptop));
    assert inventory.products == [laptop];
    assert Find(inventory.products, "SN1") == Some(0);
    var ok := inventory.StockOut("SN1", 3);
    assert ok && inventory.products[0].Info().quantity == 2;
    ok := inventory.StockOut("SN1", 10);
    assert !ok && inventory.products[0].Info().quantity == 2;
    ok := inventory.RemoveProductBySerial("SN1");
    assert ok && inventory.products == [];
    ok := inventory.RemoveProductBySerial("SN1");
    assert !ok;
  }
}
