// The records of the loading assistant: truck and item catalog entries,
// cart entries, and the loading plan the external model returns.

module Types {

  datatype Option<+T> = None | Some(value: T)

  datatype Result<+T, +E> = Ok(value: T) | Err(error: E)

  /** The three truck classes. */
  datatype TruckType = L300 | ENGKEL | DOUBLE

  /** A truck class of the catalog; weights in kilograms. */
  datatype TruckDef = TruckDef(
    id: TruckType,
    name: string,
    maxWeightKg: nat,
    targetWeightKg: nat,
    description: string)

  datatype Category = Sack | Box | Bale | Pack

  /** The text the catalog and the category filter use for a category. */
  function CategoryName(c: Category): string
  {
    match c
    case Sack => "Sack"
    case Box => "Box"
    case Bale => "Bale"
    case Pack => "Pack"
  }

  /** A kind of goods of the catalog; `color` is the hex colour of the 3-D view. */
  datatype ItemDef = ItemDef(
    id: string,
    name: string,
    category: Category,
    weightKg: nat,
    description: Option<string>,
    color: string)

  /** A catalog item together with how many units of it are loaded. */
  datatype CartItem = CartItem(item: ItemDef, quantity: nat)
  {
    function Id(): string { item.id }
  }

  datatype Position = Front | Middle | Back

  /** One block of tiers of the same configuration, front to back.
      All numbers come from the external model and may be fractional. */
  datatype TierGroup = TierGroup(
    position: Position,
    tierCount: real,
    configuration: string,
    tierWidth: real,
    tierHeight: real,
    quantityPerTier: real,
    totalItemsInGroup: real,
    itemDescription: string,
    notes: Option<string>)

  datatype WeightStatus = Safe | Warning | Overload

  datatype LoadingPlanResponse = LoadingPlanResponse(
    planName: string,
    totalWeightCalculated: real,
    totalTiersUsed: real,
    weightStatus: WeightStatus,
    tierGroups: seq<TierGroup>,
    summary: string)
}
