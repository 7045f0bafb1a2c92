/** `GET /api/items/latest` and `GET /api/items` (server/api/items/latest.get.ts
    and server/api/items/index.get.ts): items with public ids. */
module ItemList {
  import opened Wrappers
  import opened Catalog
  import Encrypt

  /** The handlers assert (`!`) that every listed item has a seller and a
      category. */
  predicate HasOwners(item: Item) {
    item.seller_id.Some? && item.category_id.Some?
  }

  /** `{ ...item, id: encodeId(item.id), seller_id: encodeId(item.seller_id!),
      category_id: encodeId(item.category_id!) }`. */
  function PublicItem(item: Item): (r: Item)
    requires HasOwners(item)
    ensures Encrypt.DecodeId(r.id) == Some(item.id)
    ensures r.seller_id.Some? && Encrypt.DecodeId(r.seller_id.value) == item.seller_id
    ensures r.category_id.Some? && Encrypt.DecodeId(r.category_id.value) == item.category_id
    ensures r.(id := item.id, seller_id := item.seller_id, category_id := item.category_id) == item
  {
    Encrypt.DecodeEncodeId(item.id);
    Encrypt.DecodeEncodeId(item.seller_id.value);
    Encrypt.DecodeEncodeId(item.category_id.value);
    item.(id := Encrypt.EncodeId(item.id),
          seller_id := Some(Encrypt.EncodeId(item.seller_id.value)),
          category_id := Some(Encrypt.EncodeId(item.category_id.value)))
  }

  /** `items.map(...)` with `PublicItem`. */
  function PublicItems(items: seq<Item>): (r: seq<Item>)
    requires forall k :: 0 <= k < |items| ==> HasOwners(items[k])
    ensures |r| == |items|
    ensures forall k :: 0 <= k < |r| ==> r[k] == PublicItem(items[k])
  {
    seq(|items|, k requires 0 <= k < |items| => PublicItem(items[k]))
  }

  /** Two listed rows get the same public id only when they share a row id. */
  lemma PublicIdsDistinct(items: seq<Item>, i: nat, j: nat)
    requires forall k :: 0 <= k < |items| ==> HasOwners(items[k])
    requires i < |items| && j < |items|
    ensures PublicItems(items)[i].id == PublicItems(items)[j].id <==> items[i].id == items[j].id
  {
    Encrypt.EncodeIdInjective(items[i].id, items[j].id);
  }

  /** The latest-items handler returns the array itself. */
  function LatestItems(items: seq<Item>): (r: seq<Item>)
    requires forall k :: 0 <= k < |items| ==> HasOwners(items[k])
    ensures |r| == |items|
    ensures forall k :: 0 <= k < |r| ==> Encrypt.DecodeId(r[k].id) == Some(items[k].id)
    ensures forall k :: 0 <= k < |r| ==> r[k] == PublicItem(items[k])
  {
    PublicItems(items)
  }

  datatype ItemsResponse = ItemsResponse(status: int, items: seq<Item>)

  /** The all-items handler wraps it as `{ status: 200, items }`. */
  function AllItems(items: seq<Item>): (r: ItemsResponse)
    requires forall k :: 0 <= k < |items| ==> HasOwners(items[k])
    ensures r.status == 200
    ensures r.items == LatestItems(items)
  {
    ItemsResponse(200, PublicItems(items))
  }
}
