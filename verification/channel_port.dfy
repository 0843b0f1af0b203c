/** The messages of the channel port (packages/channel-port/src/messages.ts) that the Amazon adapter reads. */
module ChannelPort {
  import opened Common

  /** A JavaScript number: an integer, or anything else (a fraction, NaN, an infinity). */
  datatype Number = Integer(n: int) | NotInteger

  const MAX_SAFE_INTEGER := 9007199254740991

  /** `Number.isSafeInteger(x)`. */
  predicate SafeInteger(x: Number) { x.Integer? && -MAX_SAFE_INTEGER <= x.n <= MAX_SAFE_INTEGER }

  datatype Field = PRICE | QUANTITY | CHANNEL_MIN_PRICE

  datatype Value =
    | Price(amountMinor: Number, currency: string, basis: string)
    | Quantity(quantity: Number)
    | ChannelMinPrice

  function FieldOf(v: Value): (f: Field) {
    match v
    case Price(_, _, _) => PRICE
    case Quantity(_) => QUANTITY
    case ChannelMinPrice => CHANNEL_MIN_PRICE
  }

  datatype Identity = Identity(region: Option<string>, marketplace: Option<string>, externalSku: Option<string>)

  /**
   * A command to write one field. `reference` tells apart two objects with equal fields: the source
   * compares writes with `===`, which is `==` here.
   */
  datatype Write = Write(reference: nat, id: string, scope: string, scopeField: Field,
                         identity: Identity, version: int, value: Value)

  datatype ErrorCode =
    | UNSUPPORTED | VALIDATION | PRECONDITION_FAILED | DUPLICATE_ACTION | STALE_VERSION
    | RATE_LIMITED | TIMEOUT | NOT_FOUND | RESPONSE_MISMATCH
    | CHANNEL_REPRICER_ACTIVE | CHANNEL_BOUNDS_PRESENT | OTHER

  datatype Account = Account(region: Option<string>, marketplaces: seq<string>)

  /** A store: a row of AMAZON_MARKETPLACES (packages/amazon-adapter/src/descriptor.ts). */
  datatype Store = Store(region: string, currency: string, basis: string)

  type Stores = map<string, Store>

  /** The stores of Release 1.0. */
  const RELEASE: Stores :=
      map["A1PA6795UKMFR9" := Store("EU", "EUR", "GROSS"), "ATVPDKIKX0DER" := Store("NA", "USD", "NET")]

  /** `marketplaceInfo`. */
  function StoreOf(stores: Stores, marketplace: Option<string>): (s: Option<Store>) {
    if marketplace.Some? && marketplace.value != "" && marketplace.value in stores then Some(stores[marketplace.value])
    else None
  }

  /** `skuOf`: the SKU of an identity, if it has one of at most 40 characters. */
  function Sku(identity: Identity): (s: Option<string>)
    ensures s.Some? ==> 1 <= |s.value| <= 40
  {
    var sku := identity.externalSku;
    if sku.Some? && sku.value != "" && |sku.value| <= 40 then sku else None
  }

  function SkuOf(w: Write): (s: Option<string>) { Sku(w.identity) }

  function ById(id: string): (p: Write -> bool) { (w: Write) => w.id == id }

  function ByScope(scope: string): (p: Write -> bool) { (w: Write) => w.scope == scope }
}
