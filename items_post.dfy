/** `POST /api/items` (server/api/items/index.post.ts). */
module ItemsPost {
  import opened Wrappers
  import opened Catalog
  import Const
  import Encrypt

  datatype ItemBody = ItemBody(
    title: string, description: Option<string>, price: int, condition: string,
    userId: Option<string>, categoryId: string)

  /** The body after `itemSchema.parse`: the condition is one of the six. */
  datatype ItemFields = ItemFields(
    title: string, description: Option<string>, price: int, condition: Condition,
    userId: Option<string>, categoryId: string)

  function ParseBody(b: ItemBody): (r: Option<ItemFields>)
    ensures r.Some? <==> 1 <= |b.title| <= 20 && (b.description.Some? ==> |b.description.value| <= 100)
                         && 1 <= b.price <= 5000 && ParseCondition(b.condition).Some?
    ensures r.Some? ==> ConditionText(r.value.condition) == b.condition
                        && r.value == ItemFields(b.title, b.description, b.price, r.value.condition, b.userId, b.categoryId)
  {
    var c := ParseCondition(b.condition);
    if 1 <= |b.title| <= 20 && (b.description.Some? ==> |b.description.value| <= 100)
       && 1 <= b.price <= 5000 && c.Some?
    then Some(ItemFields(b.title, b.description, b.price, c.value, b.userId, b.categoryId))
    else None
  }

  /** The values handed to `createItem`. */
  datatype NewItem = NewItem(
    seller_id: string, price: int, title: string, description: Option<string>,
    condition: Condition, category_id: string)

  datatype Outcome = Created(item: NewItem) | Failed(statusCode: int)

  /** The handler: a refused body, a missing `userId` (whose `decodeId`
      throws) and a failing insert all end in the `catch`, which answers 400.
      `lenient` is the runtime base64 decoder on text that is not canonical. */
  function Handle(b: ItemBody, lenient: string -> string, createItem: NewItem -> Call<()>): (r: Outcome)
    ensures r.Failed? ==> r.statusCode == 400
    ensures r.Created? <==>
      ParseBody(b).Some? && b.userId.Some?
      && createItem(NewItem(Encrypt.DecodeIdAt(lenient, b.userId.value), b.price, b.title, b.description,
                            ParseBody(b).value.condition, Encrypt.DecodeIdAt(lenient, b.categoryId))).Returned?
    ensures r.Created? ==>
      r.item.seller_id == Encrypt.DecodeIdAt(lenient, b.userId.value)
      && r.item.category_id == Encrypt.DecodeIdAt(lenient, b.categoryId)
      && r.item.title == b.title && r.item.description == b.description && r.item.price == b.price
      && ConditionText(r.item.condition) == b.condition
  {
    match ParseBody(b)
    case None => Failed(400)
    case Some(body) =>
      match body.userId
      case None => Failed(400)
      case Some(userId) =>
        var item := NewItem(Encrypt.DecodeIdAt(lenient, userId), body.price, body.title, body.description,
                            body.condition, Encrypt.DecodeIdAt(lenient, body.categoryId));
        match createItem(item)
        case Threw => Failed(400)
        case Returned(_) => Created(item)
  }

  /** A body carrying the public ids the listings hand out stores the rows'
      own ids, at a price within the shop's limits. */
  lemma PublicIdsStoreRowIds(b: ItemBody, lenient: string -> string, createItem: NewItem -> Call<()>,
                             seller: string, category: string)
    requires b.userId == Some(Encrypt.EncodeId(seller)) && b.categoryId == Encrypt.EncodeId(category)
    requires Handle(b, lenient, createItem).Created?
    ensures Handle(b, lenient, createItem).item.seller_id == seller
    ensures Handle(b, lenient, createItem).item.category_id == category
    ensures Const.MinItemPrice < Handle(b, lenient, createItem).item.price <= Const.MaxItemPrice
  {
    Encrypt.DecodeAtEncodeId(lenient, seller);
    Encrypt.DecodeAtEncodeId(lenient, category);
  }
}
