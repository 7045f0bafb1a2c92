/** The rows the listing endpoints handle (server/database/schema.ts and
    base.d.ts), as values. */
module Catalog {
  import opened Wrappers

  /** `Condition` of base.d.ts and the `condition` enum of the item table. */
  datatype Condition = New | LikeNew | VeryGood | Good | Fair | Poor

  /** The text of each condition, as the API and the database spell it. */
  function ConditionText(c: Condition): string {
    match c
    case New => "new"
    case LikeNew => "like new"
    case VeryGood => "very good"
    case Good => "good"
    case Fair => "fair"
    case Poor => "poor"
  }

  /** `z.enum([...])` over the six condition texts. */
  function ParseCondition(s: string): (r: Option<Condition>)
    ensures r.Some? ==> ConditionText(r.value) == s
    ensures r.None? ==> forall c: Condition :: ConditionText(c) != s
  {
    if s == "new" then Some(New)
    else if s == "like new" then Some(LikeNew)
    else if s == "very good" then Some(VeryGood)
    else if s == "good" then Some(Good)
    else if s == "fair" then Some(Fair)
    else if s == "poor" then Some(Poor)
    else None
  }

  datatype ItemStatus = Available | Sold

  /** A row of the category table. */
  datatype Category = Category(id: string, name: string, img: Option<string>, createdAt: Option<string>)

  /** The seller columns joined to an item (`avatar`, `location`). */
  datatype Seller = Seller(avatar: Option<string>, location: Option<string>)

  /** A row of the item table with its joined seller. */
  datatype Item = Item(
    id: string, title: string, description: Option<string>, images: Option<seq<string>>,
    price: int, category_id: Option<string>, seller_id: Option<string>,
    condition: Option<Condition>, status: Option<ItemStatus>, createdAt: Option<string>,
    pending: Option<bool>, seller: Option<Seller>)
}
