/**
 * The polymorphic product: the abstract `Product` of Product.h with its two
 * virtual members `getType` and `toJson` (Product.h:44-45), as a closed sum of
 * the three variants.
 */
module Devices {
  import opened Options
  import opened Json
  import opened Products
  import Laptops
  import Phones
  import Desktops

  datatype Device =
    | LaptopItem(laptop: Laptops.Laptop)
    | PhoneItem(phone: Phones.Phone)
    | DesktopItem(desktop: Desktops.Desktop)
  {
    /** The shared fields (the getters of the base class). */
    function Info(): ProductInfo
    {
      match this
      case LaptopItem(l) => l.info
      case PhoneItem(p) => p.info
      case DesktopItem(d) => d.info
    }

    /** The same variant with other shared fields; the variant's own fields are kept. */
    function WithInfo(info: ProductInfo): (d: Device)
      ensures d.Info() == info && d.TypeName() == TypeName()
      ensures LaptopItem? ==> d.LaptopItem? && d.laptop.(info := laptop.info) == laptop
      ensures PhoneItem? ==> d.PhoneItem? && d.phone.(info := phone.info) == phone
      ensures DesktopItem? ==> d.DesktopItem? && d.desktop.(info := desktop.info) == desktop
    {
      match this
      case LaptopItem(l) => LaptopItem(l.(info := info))
      case PhoneItem(p) => PhoneItem(p.(info := info))
      case DesktopItem(d) => DesktopItem(d.(info := info))
    }

    /** `getType()`: one fixed name per variant, so the name determines the variant. */
    function TypeName(): (t: string)
      ensures t == "Laptop" <==> LaptopItem?
      ensures t == "Phone" <==> PhoneItem?
      ensures t == "DesktopComputer" <==> DesktopItem?
    {
      match this
      case LaptopItem(_) => Laptops.TypeName
      case PhoneItem(_) => Phones.TypeName
      case DesktopItem(_) => Desktops.TypeName
    }

    /** `toJson()`: the variant's document, whose "type" is `getType()`. */
    function ToJson(): (j: Json)
      ensures GetString(j, "type") == Some(TypeName())
      ensures LaptopItem? ==> j == Laptops.ToJson(laptop)
      ensures PhoneItem? ==> j == Phones.ToJson(phone)
      ensures DesktopItem? ==> j == Desktops.ToJson(desktop)
    {
      match this
      case LaptopItem(l) => Laptops.ToJson(l)
      case PhoneItem(p) => Phones.ToJson(p)
      case DesktopItem(d) => Desktops.ToJson(d)
    }
  }
}
