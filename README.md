# TechWarehouse product catalog, modelled in Dafny

This project models the catalog engine of TechWarehouse, an inventory manager
for a small electronics shop. The shop sells laptops, phones and desktop
computers. The model covers five parts:

- **Products** (`product.dfy`, module `Products`): the six fields every
  product shares, and the guarded mutators of `Product`. Negative prices and
  quantities are ignored. A decrease that would go below zero is rejected.
  The mutators are pure functions on `ProductInfo`. The class
  `Products.Product` performs them in place on its fields and is proved
  against those functions.
- **The three variants** (`laptop.dfy`, `phone.dfy`, `desktop.dfy`): each
  has its own record with `getType`, `toJson` and `fromJson`. `fromJson` is
  all-or-nothing over nine keys. It never reads `"type"` and ignores every
  other key. Each variant has a round-trip lemma.
- **`Devices.Device`** (`device.dfy`): the closed sum of the three variants.
  It stands for the virtual `getType`/`toJson` interface of the abstract
  `Product`.
- **Categories** (`category.dfy`): the category record and its JSON pair.
- **The store** (`inventory.dfy`, module `Catalog`): the specification
  functions come first. `Find`, `Filter`, `FirstString` (`getStringAny`),
  `Decode` (the type dispatch), `ApplyUpdate` (the edit), `Loaded` and
  `Saved` state what the store does on a sequence of products. The class
  `Catalog.Inventory` holds the registry and a `seq<Device>`. Its methods
  work step by step, as the C++ methods do, and are proved against those
  functions.

JSON documents are modelled by a small datatype (`json.dfy`, module `Json`).
Objects are string-keyed maps. The typed reads `j.at(k).get<T>()` become
`GetString`, `GetInt`, `GetNumber` and `GetBool`. Each fails (returns `None`)
where the C++ read `get<T>()` throws.

Behaviour the model follows from the code:

- `updateProductFromJson` does not merge anything. It decodes the product
  from the whole document it is given, so a caller that wants to change a
  few fields must pass the product's full document with those fields
  overwritten. `Catalog.VariantSwitch` shows such a document turning a
  laptop into a phone.
- The duplicate check in the edit uses the first string among four serial
  aliases. If that string is empty, it falls back to the current serial.
  The new record takes its serial from `"serialNumber"` only. So a
  `"serialNumber": ""` skips the check and stores a product with an empty
  serial, which no lookup can reach again (`Catalog.EmptySerialAccepted`).
  Distinct non-empty serials are still preserved (`Catalog.UpdateKeepsDistinct`).
- `serialExists("")` is false, so any number of empty-serial products can
  be added. The invariant the store keeps is therefore "no two products
  share a non-empty serial" (`Catalog.DistinctSerials`). `addProduct`,
  removal, the edit and stock changes preserve it. Loading does not: it
  performs no duplicate check (`Catalog.LoadMayDuplicate`).
- Variant `fromJson` never reads `"type"`; the type is chosen by the caller.
  The edit uses `"type"`/`"Type"` and falls back to the current type. Load
  skips an entry whose `"type"` is missing, is not a string or is unknown.
- Neither constructors nor `fromJson` check that RAM or storage is positive,
  or that price and quantity are non-negative. Every round trip holds for
  all values.
- `getType` of a desktop is `"DesktopComputer"`, not the category name
  `"Desktop"`.
- The variant getters (`getCpu`, `getRamGB`, …) and the category getters are
  the datatypes' destructors. The category constructor is the datatype
  constructor.

## Model

| member | source | states |
|---|---|---|
| `Products.Renamed` | Product.cpp:27-29 | the name becomes the new value and no other field changes |
| `Products.Rebranded` | Product.cpp:31-33 | the brand becomes the new value and no other field changes |
| `Products.Repriced` | Product.cpp:35-38 | a non-negative price is taken, a negative one leaves the record unchanged; a non-negative price stays non-negative; only the price can change |
| `Products.Requantified` | Product.cpp:40-43 | a non-negative quantity is taken, a negative one leaves the record unchanged; only the quantity can change |
| `Products.Increased` | Product.cpp:45-48 | a positive amount raises the quantity by exactly that amount; any other amount leaves it unchanged; nothing else changes |
| `Products.TryDecrease` | Product.cpp:50-55 | succeeds iff 0 < amount <= quantity; on success the quantity drops by exactly the amount and stays non-negative, and nothing else changes |
| `Products.DecreaseThenIncrease` | Product.cpp:45-55 | a successful decrease is undone by increasing by the same amount |
| `Products.IncreaseThenDecrease` | Product.cpp:45-55 | from a non-negative quantity, an increase by a positive amount is undone by decreasing by it |
| `Products.MutatorsKeepSane` | Product.cpp:35-55 | no setter, increase or successful decrease makes a non-negative price or quantity negative |
| `Products.Product.constructor` | Product.cpp:3-17 | stores all six arguments verbatim, unchecked |
| `Products.Product.Record` | Product.cpp:19-24 | the getters return the stored fields |
| `Products.Product.SetName` | Product.cpp:27-29 | the object's record becomes `Renamed` of the old one |
| `Products.Product.SetBrand` | Product.cpp:31-33 | the object's record becomes `Rebranded` of the old one |
| `Products.Product.SetPrice` | Product.cpp:35-38 | the object's record becomes `Repriced` of the old one |
| `Products.Product.SetQuantity` | Product.cpp:40-43 | the object's record becomes `Requantified` of the old one |
| `Products.Product.IncreaseQuantity` | Product.cpp:45-48 | the object's record becomes `Increased` of the old one |
| `Products.Product.DecreaseQuantity` | Product.cpp:50-55 | returns whether `TryDecrease` succeeds; the quantity changes only then |
| `Products.InfoFromJson` | Laptop.cpp:53-58 | the six shared fields of a decoded record are the values read from their keys (Phone.cpp:40-45 and DesktopComputer.cpp:41-46 read them the same way) |
| `Products.InfoFromJsonAllOrNothing` | Laptop.cpp:53-58 | the six shared reads succeed exactly when all six keys hold a value of the right kind |
| `Products.InfoFromJsonLocal` | Laptop.cpp:53-58 | the shared reads depend on the six shared keys only |
| `Laptops.ToJson` | Laptop.cpp:32-49 | the document has exactly the keys type, serialNumber, name, brand, price, quantity, categoryId, cpu, ramGB, storageGB, and "type" is `getType()`, "Laptop" |
| `Laptops.FromJson` | Laptop.cpp:51-63 | every field of a decoded laptop is the value read from its key: the six shared ones, cpu, ramGB and storageGB |
| `Laptops.RoundTrip` | Laptop.cpp:36-63 | decoding a laptop's document gives back the same laptop, whatever its RAM and storage |
| `Laptops.AllOrNothing` | Laptop.cpp:51-63 | decoding succeeds exactly when all nine keys hold the right kind |
| `Laptops.OnlySchemaKeysRead` | Laptop.cpp:51-63 | two documents that agree on the nine keys decode alike |
| `Laptops.OtherKeysIgnored` | Laptop.cpp:51-63 | adding or overwriting a key outside the nine changes nothing |
| `Laptops.TypeIgnored` | Laptop.cpp:51-63 | the "type" value is never read |
| `Phones.ToJson` | Phone.cpp:19-36 | exactly the keys type, serialNumber, name, brand, price, quantity, categoryId, cpu, storageGB, has5G, and "type" is `getType()`, "Phone" |
| `Phones.FromJson` | Phone.cpp:38-50 | every field of a decoded phone is the value read from its key: the six shared ones, cpu, storageGB and has5G |
| `Phones.RoundTrip` | Phone.cpp:23-50 | decoding a phone's document gives back the same phone |
| `Phones.AllOrNothing` | Phone.cpp:38-50 | decoding succeeds exactly when all nine keys hold the right kind, has5G a boolean |
| `Phones.OnlySchemaKeysRead` | Phone.cpp:38-50 | two documents that agree on the nine keys decode alike |
| `Phones.OtherKeysIgnored` | Phone.cpp:38-50 | adding or overwriting a key outside the nine changes nothing |
| `Phones.TypeIgnored` | Phone.cpp:38-50 | the "type" value is never read |
| `Desktops.ToJson` | DesktopComputer.cpp:20-37 | exactly the keys type, serialNumber, name, brand, price, quantity, categoryId, cpu, gpu, ramGB, and "type" is `getType()`, "DesktopComputer" |
| `Desktops.FromJson` | DesktopComputer.cpp:39-51 | every field of a decoded desktop is the value read from its key: the six shared ones, cpu, gpu and ramGB |
| `Desktops.RoundTrip` | DesktopComputer.cpp:24-51 | decoding a desktop's document gives back the same desktop |
| `Desktops.AllOrNothing` | DesktopComputer.cpp:39-51 | decoding succeeds exactly when all nine keys hold the right kind |
| `Desktops.OnlySchemaKeysRead` | DesktopComputer.cpp:39-51 | two documents that agree on the nine keys decode alike |
| `Desktops.OtherKeysIgnored` | DesktopComputer.cpp:39-51 | adding or overwriting a key outside the nine changes nothing |
| `Desktops.TypeIgnored` | DesktopComputer.cpp:39-51 | the "type" value is never read |
| `Categories.ToJson` | Category.cpp:27-33 | exactly the keys id, name, description |
| `Categories.FromJson` | Category.cpp:19-25 | a decoded category's id, name and description are the values read from those keys |
| `Categories.RoundTrip` | Category.cpp:19-33 | decoding a category's document gives back all three fields |
| `Categories.AllOrNothing` | Category.cpp:19-25 | decoding succeeds exactly when id, name and description hold the right kind |
| `Categories.OnlySchemaKeysRead` | Category.cpp:19-25 | only the three keys are read |
| `Devices.Device.TypeName` | Product.h:44 | getType is "Laptop" exactly for laptops, "Phone" exactly for phones, "DesktopComputer" exactly for desktops |
| `Devices.Device.ToJson` | Product.h:45 | every product's document names its own type under "type" and is exactly its variant's `toJson` document, with that variant's ten keys |
| `Devices.Device.WithInfo` | Product.h:8-13 | changing the shared fields keeps the variant and its own fields |
| `Catalog.Find` | Inventory.cpp:68-77 | none for "" or no match; otherwise the first position whose serial equals the argument |
| `Catalog.Filter` | Inventory.cpp:83-109 | keeps exactly the products that match, never more than the catalog holds |
| `Catalog.FilterAppend` | Inventory.cpp:89-93 | filtering preserves catalog order: it distributes over concatenation |
| `Catalog.FilterKeepsAll` | Inventory.cpp:115-124 | when every product is kept, the catalog is returned unchanged |
| `Catalog.FilterKeepsDistinct` | Inventory.cpp:111-128 | removing products never breaks distinct non-empty serials |
| `Catalog.RemovedSerialIsGone` | Inventory.cpp:111-128 | after removal no product carries the serial, and the catalog shrank if one did |
| `Catalog.AppendKeepsDistinct` | Inventory.cpp:47-55 | appending a product whose serial is not taken keeps distinct non-empty serials |
| `Catalog.ReplaceKeepsDistinct` | Inventory.cpp:165-172 | replacing in place by an empty, same or untaken serial keeps distinct non-empty serials |
| `Catalog.Decode` | Inventory.cpp:149-158 | a decoded product has the requested type, and it is what that variant's `fromJson` gives for the document |
| `Catalog.DecodeAllOrNothing` | Inventory.cpp:149-163 | decoding by name succeeds iff the name is one of the three types and the document conforms to that type's keys |
| `Catalog.EncodeDecode` | Inventory.cpp:249-264 | a product's document names its type, and decoding it by that type gives the product back |
| `Catalog.FirstString` | Inventory.cpp:13-21 | the value of the first key holding a string, or "" when none does |
| `Catalog.ApplyUpdate` | Inventory.cpp:130-172 | a successful edit replaces at the first position carrying the current serial, by a product decoded from the document by its own type |
| `Catalog.UpdateSucceedsIff` | Inventory.cpp:130-163 | the edit succeeds exactly when the current serial is found, a given new serial is the current one or untaken, and the chosen type (the named one, else the current product's) decodes the document |
| `Catalog.UpdateFailures` | Inventory.cpp:130-163 | the edit fails on an unknown current serial, a taken new serial, an unknown type name, missing shared fields, or any document the chosen type (the named one, else the old one) cannot decode |
| `Catalog.UpdateRebuildsFromDocument` | Inventory.cpp:143-172 | a successful edit replaces the first product with the current serial; the new product is the one decoded from the document (shared and own fields), and its type is the named one or else the old one |
| `Catalog.UpdateKeepsDistinct` | Inventory.cpp:136-141 | a successful edit keeps distinct non-empty serials |
| `Catalog.EmptySerialAccepted` | Inventory.cpp:136-141 | an empty "serialNumber" passes the check and stores a product that no lookup can reach |
| `Catalog.VariantSwitch` | Inventory.cpp:143-156 | a laptop's document re-typed as "Phone" with the phone's fields turns the laptop into a phone at the same position |
| `Catalog.DecodeEntry` | Inventory.cpp:249-264 | an entry whose "type" is a string loads exactly as the product decoded by that type name, and fails to load when that decode fails; an entry without a string "type" is skipped |
| `Catalog.DecodeEntries` | Inventory.cpp:249-269 | loading never yields more products than there are entries |
| `Catalog.LoadKeepsDecodable` | Inventory.cpp:249-269 | a product is loaded iff some entry decodes to it: every accepted entry is kept and nothing else appears |
| `Catalog.DecodeEntriesAppend` | Inventory.cpp:249-269 | loading keeps file order: two runs of entries load as their results one after the other |
| `Catalog.Loaded` | Inventory.cpp:244-269 | the catalog is empty unless "products" is an array, else the entries of that array decoded |
| `Catalog.Saved` | Inventory.cpp:275-280 | the saved document holds only "products": each product's document, in catalog order |
| `Catalog.LoadSaveRoundTrip` | Inventory.cpp:244-280 | loading a saved catalog gives back the same catalog |
| `Catalog.LoadSkipsEntryWithoutType` | Inventory.cpp:249-251 | a file with a valid laptop and an entry without "type" loads as that laptop alone |
| `Catalog.LoadMayDuplicate` | Inventory.cpp:256-263 | loading does not check serials: one entry twice loads as two equal products |
| `Catalog.GetStringAny` | Inventory.cpp:13-21 | the scan returns `FirstString` of the keys |
| `Catalog.Inventory.constructor` | Inventory.cpp:25-29 | the registry is 1 Laptop, 2 Phone, 3 Desktop, and the catalog is empty |
| `Catalog.Inventory.GetCategoryById` | Inventory.cpp:37-43 | the first category with the id, or none when no category has it |
| `Catalog.Inventory.SerialExists` | Inventory.cpp:57-66 | true iff the serial is non-empty and some product carries it |
| `Catalog.Inventory.Locate` | Inventory.cpp:72-75 | the scan stops at `Find` |
| `Catalog.Inventory.FindBySerial` | Inventory.cpp:68-77 | a product iff the serial is taken, and then the first one carrying it |
| `Catalog.Inventory.AllProducts` | Inventory.cpp:79-81 | the whole catalog, in order |
| `Catalog.Inventory.AddProduct` | Inventory.cpp:47-55 | appends iff the product is present and its serial is not taken, otherwise no change; keeps distinct serials |
| `Catalog.Inventory.SearchByName` | Inventory.cpp:83-95 | empty for an empty term, else the products whose name contains the term, in order |
| `Catalog.Inventory.ListByCategory` | Inventory.cpp:97-109 | empty unless the id is 1, 2 or 3, else the products of that category, in order |
| `Catalog.Inventory.RemoveProductBySerial` | Inventory.cpp:111-128 | true iff the serial is taken; then every product with it is removed and the rest keep their order, else no change; for a non-empty serial the new catalog is the catalog filtered on "serial differs" in both cases |
| `Catalog.Inventory.UpdateProductFromJson` | Inventory.cpp:130-175 | true iff `ApplyUpdate` succeeds; then only the position it names changes, to the decoded product, else no change; keeps distinct serials |
| `Catalog.Inventory.CanStockIn` | Inventory.cpp:179-191 | true iff the amount is positive and the serial is taken |
| `Catalog.Inventory.CanStockOut` | Inventory.cpp:193-208 | as `CanStockIn`, and the amount is at most the first match's quantity |
| `Catalog.Inventory.StockIn` | Inventory.cpp:212-219 | on success only the first matching product's quantity changes, by `Increased`; otherwise nothing changes |
| `Catalog.Inventory.StockOut` | Inventory.cpp:221-227 | on success only the first matching product's quantity changes, by `TryDecrease`; otherwise nothing changes |
| `Catalog.Inventory.LoadFromDocument` | Inventory.cpp:231-272 | an unreadable file returns false with no change; otherwise returns true and the catalog becomes `Loaded` of the document |
| `Catalog.Inventory.SaveToDocument` | Inventory.cpp:274-288 | the document written is `Saved` of the catalog |

## Left out

- File I/O in `loadFromFile` and `saveToFile`: opening files, parsing JSON text, and `dump(4)`. A parse or open failure on load is the `None` case of `LoadFromDocument`'s argument. The save method returns the document instead of writing it, so a write-open failure is not modelled.
- The exact coercions of the JSON library. Integer fields accept only integers, although the library also converts floating-point numbers and booleans into an `int`. Such documents decode to `None` here where the library would decode them. Price accepts an integer or a floating-point number, as the library's `double` conversion does.
- Floating-point `price` is a `real`. Only the sign test in `setPrice` matters to the model.
- Products.Increased: does not model overflow of the C++ `int` quantity. Quantities, RAM, storage and category ids are unbounded integers.
- Shared-pointer aliasing. The catalog holds product values and updates them by position. A handle returned by `findBySerial` and mutated later through its setters is not modelled as changing the catalog.
- `updateProductFromJson` scans a second time for the current serial before replacing (Inventory.cpp:165-172). Nothing changes between the two scans, so the model replaces at the position found first, and the unreachable final `return false` is omitted.
- `getCategories` (Inventory.cpp:33-35) is the `categories` field itself.
- The interactive menu (ConsoleMenu.cpp) and `main` (TechWarehouse.cpp) are not part of this model. That includes the menu's merge of edited fields into the product's document. It also includes the keys "ram", "storage" and "has5g" that the menu writes; the `OtherKeysIgnored` lemmas show that decoding ignores them.
