/**
 * The records the inventory page works with: the shapes the backend returns
 * for locations, categories, units and solid inventory items, and the printer
 * records the local printer SDK enumerates.
 */
module Inventory {
  import opened Options

  datatype Location = Location(
    id: int,
    locationId: Option<string>,
    name: string,
    description: string,
    createTime: string)

  datatype Category = Category(
    id: int,
    categoryId: string,
    name: string,
    description: string,
    createTime: string)

  datatype Unit = Unit(quantityUnit: string, quantityUnitCode: string)

  /** A solid inventory item. `casNumber` may arrive as null from the backend. */
  datatype Item = Item(
    id: int,
    inventoryItemId: string,
    name: string,
    location: Location,
    category: Category,
    status: string,
    currentQuantityAmount: int,
    quantityUnit: string,
    casNumber: Option<string>)

  /** A printer as enumerated by the local print SDK: its unique id and connection string. */
  datatype Printer = Printer(name: string, uid: string, connection: string)
}
