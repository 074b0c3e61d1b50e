/**
 * The fields every product shares (Product.h:8-13), the guarded mutators of
 * Product.cpp, and the reads of the shared fields that every variant's
 * `fromJson` performs.
 *
 * The mutators are specified by pure functions on `ProductInfo`; the class
 * `Product` performs them in place on its fields, and the catalog applies the
 * same functions to the records it stores.
 */
module Products {
  import opened Options
  import opened Json

  /** serial number, display name, brand, price, quantity on hand, category id. */
  datatype ProductInfo = ProductInfo(
    serialNumber: string,
    name: string,
    brand: string,
    price: real,
    quantity: int,
    categoryId: int)

  // ---------------------------------------------------------------------------
  // The mutators, as functions on the record

  /** `setName`: the name is replaced unconditionally; nothing else changes. */
  function Renamed(p: ProductInfo, newName: string): (r: ProductInfo)
    ensures r.name == newName
    ensures r.(name := p.name) == p
  {
    p.(name := newName)
  }

  /** `setBrand`: the brand is replaced unconditionally; nothing else changes. */
  function Rebranded(p: ProductInfo, newBrand: string): (r: ProductInfo)
    ensures r.brand == newBrand
    ensures r.(brand := p.brand) == p
  {
    p.(brand := newBrand)
  }

  /** `setPrice`: a negative price is ignored and the old price kept. */
  function Repriced(p: ProductInfo, newPrice: real): (r: ProductInfo)
    ensures r.(price := p.price) == p
    ensures newPrice >= 0.0 ==> r.price == newPrice
    ensures newPrice < 0.0 ==> r == p
    ensures p.price >= 0.0 ==> r.price >= 0.0
  {
    if newPrice >= 0.0 then p.(price := newPrice) else p
  }

  /** `setQuantity`: a negative quantity is ignored and the old one kept. */
  function Requantified(p: ProductInfo, newQuantity: int): (r: ProductInfo)
    ensures r.(quantity := p.quantity) == p
    ensures newQuantity >= 0 ==> r.quantity == newQuantity
    ensures newQuantity < 0 ==> r == p
    ensures p.quantity >= 0 ==> r.quantity >= 0
  {
    if newQuantity >= 0 then p.(quantity := newQuantity) else p
  }

  /** `increaseQuantity`: adds a positive amount; any other amount is a no-op. */
  function Increased(p: ProductInfo, amount: int): (r: ProductInfo)
    ensures r.(quantity := p.quantity) == p
    ensures r.quantity >= p.quantity
    ensures r.quantity == p.quantity <==> amount <= 0
    ensures amount > 0 ==> r.quantity == p.quantity + amount
  {
    if amount > 0 then p.(quantity := p.quantity + amount) else p
  }

  /**
   * `decreaseQuantity`: fails (None) unless `0 < amount <= quantity`;
   * otherwise subtracts. The quantity is never driven below zero.
   */
  function TryDecrease(p: ProductInfo, amount: int): (r: Option<ProductInfo>)
    ensures r.Some? <==> 0 < amount <= p.quantity
    ensures r.Some? ==> r.value.(quantity := p.quantity) == p
    ensures r.Some? ==> 0 <= r.value.quantity < p.quantity
    ensures r.Some? ==> r.value.quantity == p.quantity - amount
  {
    if amount <= 0 || amount > p.quantity then None
    else Some(p.(quantity := p.quantity - amount))
  }

  /** A successful decrease is undone by increasing by the same amount. */
  lemma DecreaseThenIncrease(p: ProductInfo, amount: int)
    requires TryDecrease(p, amount).Some?
    ensures Increased(TryDecrease(p, amount).value, amount) == p
  {
  }

  /**
   * Increasing by a positive amount can be taken back, provided the quantity
   * was not negative to begin with (the constructor does not rule that out).
   */
  lemma IncreaseThenDecrease(p: ProductInfo, amount: int)
    requires amount > 0 && p.quantity >= 0
    ensures TryDecrease(Increased(p, amount), amount) == Some(p)
  {
  }

  /**
   * The guards in the setters keep price and quantity non-negative: a record
   * whose price and quantity are non-negative stays so under every mutator,
   * whatever the arguments.
   */
  predicate Sane(p: ProductInfo)
  {
    p.price >= 0.0 && p.quantity >= 0
  }

  lemma {:induction false} MutatorsKeepSane(p: ProductInfo, s: string, x: real, n: int)
    requires Sane(p)
    ensures Sane(Renamed(p, s)) && Sane(Rebranded(p, s))
    ensures Sane(Repriced(p, x)) && Sane(Requantified(p, n)) && Sane(Increased(p, n))
    ensures TryDecrease(p, n).Some? ==> Sane(TryDecrease(p, n).value)
  {
  }

  // ---------------------------------------------------------------------------
  // The in-place object

  /** A product object whose setters update its fields in place. */
  class Product {
    var serialNumber: string
    var name: string
    var brand: string
    var price: real
    var quantity: int
    var categoryId: int

    /** The record the object currently holds (its getters). */
    function Record(): (r: ProductInfo)
      reads this
      ensures r.serialNumber == serialNumber && r.name == name && r.brand == brand
      ensures r.price == price && r.quantity == quantity && r.categoryId == categoryId
    {
      ProductInfo(serialNumber, name, brand, price, quantity, categoryId)
    }

    /** Stores all six values verbatim: neither price nor quantity is checked. */
    constructor (serialNumber: string, name: string, brand: string, price: real, quantity: int, categoryId: int)
      ensures Record() == ProductInfo(serialNumber, name, brand, price, quantity, categoryId)
    {
      this.serialNumber := serialNumber;
      this.name := name;
      this.brand := brand;
      this.price := price;
      this.quantity := quantity;
      this.categoryId := categoryId;
    }

    method SetName(newName: string)
      modifies this
      ensures Record() == Renamed(old(Record()), newName)
    {
      name := newName;
    }

    method SetBrand(newBrand: string)
      modifies this
      ensures Record() == Rebranded(old(Record()), newBrand)
    {
      brand := newBrand;
    }

    method SetPrice(newPrice: real)
      modifies this
      ensures Record() == Repriced(old(Record()), newPrice)
    {
      if newPrice >= 0.0 {
        price := newPrice;
      }
    }

    method SetQuantity(newQuantity: int)
      modifies this
      ensures Record() == Requantified(old(Record()), newQuantity)
    {
      if newQuantity >= 0 {
        quantity := newQuantity;
      }
    }

    method IncreaseQuantity(amount: int)
      modifies this
      ensures Record() == Increased(old(Record()), amount)
    {
      if amount > 0 {
        quantity := quantity + amount;
      }
    }

    method DecreaseQuantity(amount: int) returns (ok: bool)
      modifies this
      ensures ok == TryDecrease(old(Record()), amount).Some?
      ensures Record() == if ok then TryDecrease(old(Record()), amount).value else old(Record())
    {
      if amount <= 0 || amount > quantity {
        return false;
      }
      quantity := quantity - amount;
      return true;
    }
  }

  // ---------------------------------------------------------------------------
  // The shared fields as JSON

  /** The six shared keys and the kinds `fromJson` reads them as. */
  const InfoSchema: Schema := [
    ("serialNumber", StringKind), ("name", StringKind), ("brand", StringKind),
    ("price", NumberKind), ("quantity", IntKind), ("categoryId", IntKind)]

  /** The six shared reads every variant's `fromJson` performs. */
  function InfoFromJson(j: Json): (r: Option<ProductInfo>)
    ensures r.Some? ==> GetString(j, "serialNumber") == Some(r.value.serialNumber)
    ensures r.Some? ==> GetString(j, "name") == Some(r.value.name) && GetString(j, "brand") == Some(r.value.brand)
    ensures r.Some? ==> GetNumber(j, "price") == Some(r.value.price)
    ensures r.Some? ==> GetInt(j, "quantity") == Some(r.value.quantity) && GetInt(j, "categoryId") == Some(r.value.categoryId)
  {
    var serial, name, brand := GetString(j, "serialNumber"), GetString(j, "name"), GetString(j, "brand");
    var price, quantity, category := GetNumber(j, "price"), GetInt(j, "quantity"), GetInt(j, "categoryId");
    if serial.Some? && name.Some? && brand.Some? && price.Some? && quantity.Some? && category.Some? then
      Some(ProductInfo(serial.value, name.value, brand.value, price.value, quantity.value, category.value))
    else
      None
  }

  /** The shared reads succeed exactly when all six keys hold the right kind. */
  lemma {:induction false} InfoFromJsonAllOrNothing(j: Json)
    ensures InfoFromJson(j).Some? <==> Conforms(j, InfoSchema)
  {
    if Conforms(j, InfoSchema) {
      assert HasKind(j, "serialNumber", StringKind) && HasKind(j, "name", StringKind);
      assert HasKind(j, "brand", StringKind) && HasKind(j, "price", NumberKind);
      assert HasKind(j, "quantity", IntKind) && HasKind(j, "categoryId", IntKind);
    }
  }

  /** The shared reads look at the six shared keys only. */
  lemma {:induction false} InfoFromJsonLocal(j: Json, j': Json)
    requires AgreeOn(j, j', InfoSchema)
    ensures InfoFromJson(j) == InfoFromJson(j')
  {
    assert At(j, "serialNumber") == At(j', "serialNumber") && At(j, "name") == At(j', "name");
    assert At(j, "brand") == At(j', "brand") && At(j, "price") == At(j', "price");
    assert At(j, "quantity") == At(j', "quantity") && At(j, "categoryId") == At(j', "categoryId");
  }
}
