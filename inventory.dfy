/** The economy's items and inventories: an `item` table keyed by item ID,
    seeded from a list of item definitions, and an `inventory` table with
    one quantity per user and item, created at 0 on first use. */
module Inventory {
  import opened Wrappers
  import opened Text
  import opened Ledger

  datatype Item = Item(buyable: bool, price: Option<int>, maxAvailable: Option<int>)

  /** The keyword arguments an item definition gives to `ItemModel.add`;
      `None` where the definition leaves the argument out. */
  datatype ItemArgs = ItemArgs(
    buyable: Option<bool>,
    price: Option<Option<int>>,
    maxAvailable: Option<Option<int>>)

  /** The row `ItemModel.add` creates: not buyable, no price and no cap
      unless the definition says otherwise. */
  function FromArgs(args: ItemArgs): (item: Item)
    ensures item.buyable == (args.buyable == Some(true))
    ensures args.price.None? ==> item.price.None?
    ensures args.price.Some? ==> item.price == args.price.value
    ensures args.maxAvailable.None? ==> item.maxAvailable.None?
    ensures args.maxAvailable.Some? ==> item.maxAvailable == args.maxAvailable.value
  {
    Item(
      args.buyable.GetOr(false),
      args.price.GetOr(None),
      args.maxAvailable.GetOr(None))
  }

  /** The item table after seeding: existing items as they are, and a new
      row for every definition whose ID is not present yet. */
  function Seeded(existing: map<int, Item>, specs: map<int, ItemArgs>): (r: map<int, Item>)
    ensures r.Keys == existing.Keys + specs.Keys
    ensures forall id :: id in existing ==> r[id] == existing[id]
    ensures forall id :: id in specs && id !in existing ==> r[id] == FromArgs(specs[id])
  {
    map id | id in existing.Keys + specs.Keys ::
      if id in existing then existing[id] else FromArgs(specs[id])
  }

  /** Seeding twice is seeding once. */
  lemma SeedingIdempotent(existing: map<int, Item>, specs: map<int, ItemArgs>)
    ensures Seeded(Seeded(existing, specs), specs) == Seeded(existing, specs)
  {
  }

  /** The rows of one item, by (user, item). */
  function ItemRows(rows: map<(int, int), int>, item: int): (r: map<(int, int), int>)
    ensures forall k :: k in r <==> k in rows && k.1 == item
    ensures forall k :: k in r ==> r[k] == rows[k]
  {
    map k | k in rows && k.1 == item :: rows[k]
  }

  /** The rows of an item after its (user, item) row is written. */
  lemma ItemRowsAfterWrite(rows: map<(int, int), int>, user: int, item: int, v: int, other: int)
    ensures ItemRows(rows[(user, item) := v], item) == ItemRows(rows, item)[(user, item) := v]
    ensures other != item ==> ItemRows(rows[(user, item) := v], other) == ItemRows(rows, other)
  {
    var after := rows[(user, item) := v];
    assert ItemRows(after, item).Keys == ItemRows(rows, item)[(user, item) := v].Keys;
    if other != item {
      assert ItemRows(after, other).Keys == ItemRows(rows, other).Keys;
    }
  }

  /** A relative update of one user's row moves the claimed amount of that
      item by exactly the quantity given, and leaves every other item's
      rows as they are. */
  lemma UpdateMovesClaimed(rows: map<(int, int), int>, user: int, item: int, quantity: int, other: int)
    requires other != item
    ensures Total(ItemRows(rows[(user, item) := Read(rows, (user, item)) + quantity], item)) ==
      Total(ItemRows(rows, item)) + quantity
    ensures ItemRows(rows[(user, item) := Read(rows, (user, item)) + quantity], other) == ItemRows(rows, other)
  {
    var v := Read(rows, (user, item)) + quantity;
    ItemRowsAfterWrite(rows, user, item, v, other);
    TotalUpdate(ItemRows(rows, item), (user, item), v);
  }

  // -------------------------------------------------------------- listing

  /** A field of the inventory listing. */
  datatype Field = ItemField(item: int, quantity: int) | Placeholder

  /** What the `inventory` command lists for a user's quantities by item:
      one field per item held in a non-zero quantity, in ascending item
      order; a single placeholder when there is none. */
  ghost predicate Lists(inv: map<int, int>, fields: seq<Field>) {
    if forall k :: k in inv ==> inv[k] == 0 then fields == [Placeholder]
    else
      && (forall i :: 0 <= i < |fields| ==>
            fields[i].ItemField? && fields[i].item in inv && inv[fields[i].item] != 0
            && fields[i].quantity == inv[fields[i].item])
      && (forall i, j :: 0 <= i < j < |fields| ==> fields[i].item < fields[j].item)
      && (forall k :: k in inv && inv[k] != 0 ==> ItemField(k, inv[k]) in fields)
  }

  /** Ascending item fields, all of whose items are in `keys`, and that
      contain every key. */
  ghost predicate Enumerates(fields: seq<Field>, keys: set<int>) {
    && (forall i :: 0 <= i < |fields| ==> fields[i].ItemField? && fields[i].item in keys)
    && (forall i, j :: 0 <= i < j < |fields| ==> fields[i].item < fields[j].item)
    && (forall k :: k in keys ==> exists i :: 0 <= i < |fields| && fields[i].item == k)
  }

  lemma EmptyEnumeration(fields: seq<Field>, keys: set<int>)
    requires Enumerates(fields, keys)
    ensures |fields| == 0 <==> keys == {}
  {
    if |fields| > 0 {
      assert fields[0].item in keys;
    }
    if keys != {} {
      HasElement(keys);
      var k :| k in keys;
      assert exists i :: 0 <= i < |fields| && fields[i].item == k;
    }
  }

  /** The first field of an enumeration holds the smallest item. */
  lemma HeadIsSmallest(fields: seq<Field>, keys: set<int>, k: int)
    requires Enumerates(fields, keys) && k in keys
    ensures |fields| > 0 && fields[0].item <= k
  {
    var i :| 0 <= i < |fields| && fields[i].item == k;
    if i > 0 {
      assert fields[0].item < fields[i].item;
    }
  }

  /** Past its first field, an enumeration enumerates the other items. */
  lemma TailEnumerates(fields: seq<Field>, keys: set<int>)
    requires Enumerates(fields, keys) && |fields| > 0
    ensures Enumerates(fields[1..], keys - {fields[0].item})
  {
    var rest := keys - {fields[0].item};
    forall i | 0 <= i < |fields[1..]| ensures fields[1..][i].item in rest {
      assert fields[0].item < fields[i + 1].item;
    }
    forall k | k in rest
      ensures exists i :: 0 <= i < |fields[1..]| && fields[1..][i].item == k
    {
      var i :| 0 <= i < |fields| && fields[i].item == k;
      assert fields[1..][i - 1].item == k;
    }
  }

  /** Only one ascending sequence enumerates a set of items. */
  lemma {:induction false} EnumerationUnique(f1: seq<Field>, f2: seq<Field>, keys: set<int>)
    requires Enumerates(f1, keys) && Enumerates(f2, keys)
    ensures |f1| == |f2| && forall i :: 0 <= i < |f1| ==> f1[i].item == f2[i].item
    decreases |f1|
  {
    EmptyEnumeration(f1, keys);
    EmptyEnumeration(f2, keys);
    if keys != {} {
      HeadIsSmallest(f1, keys, f2[0].item);
      HeadIsSmallest(f2, keys, f1[0].item);
      TailEnumerates(f1, keys);
      TailEnumerates(f2, keys);
      EnumerationUnique(f1[1..], f2[1..], keys - {f1[0].item});
      forall i | 0 <= i < |f1| ensures f1[i].item == f2[i].item {
        if i > 0 {
          assert f1[i] == f1[1..][i - 1] && f2[i] == f2[1..][i - 1];
        }
      }
    }
  }

  /** The items held in a non-zero quantity. */
  function Held(inv: map<int, int>): (r: set<int>)
    ensures forall k :: k in r <==> k in inv && inv[k] != 0
  {
    set k | k in inv && inv[k] != 0
  }

  lemma ListingEnumerates(inv: map<int, int>, fields: seq<Field>)
    requires Lists(inv, fields) && Held(inv) != {}
    ensures Enumerates(fields, Held(inv))
  {
    assert !(forall k :: k in inv ==> inv[k] == 0) by {
      HasElement(Held(inv));
    }
    forall k | k in Held(inv) ensures exists i :: 0 <= i < |fields| && fields[i].item == k {
      var i :| 0 <= i < |fields| && fields[i] == ItemField(k, inv[k]);
    }
  }

  /** The listing is determined by the quantities: two listings of the same
      inventory are equal. */
  lemma ListingUnique(inv: map<int, int>, f1: seq<Field>, f2: seq<Field>)
    requires Lists(inv, f1) && Lists(inv, f2)
    ensures f1 == f2
  {
    if Held(inv) != {} {
      ListingEnumerates(inv, f1);
      ListingEnumerates(inv, f2);
      EnumerationUnique(f1, f2, Held(inv));
      assert forall i :: 0 <= i < |f1| ==> f1[i] == f2[i];
    }
  }

  /** The smallest ID of a set that is not empty. */
  method Min(s: set<int>) returns (m: int)
    requires s != {}
    ensures m in s && forall x :: x in s ==> m <= x
  {
    HasElement(s);
    m :| m in s;
    var todo := s - {m};
    while todo != {}
      invariant todo <= s && m in s
      invariant forall x :: x in s && x !in todo ==> m <= x
      decreases todo
    {
      HasElement(todo);
      var x :| x in todo;
      if x < m {
        m := x;
      }
      todo := todo - {x};
    }
  }

  /** The listing of the `inventory` command for a user's quantities: the
      rows in ascending item order, those with quantity 0 skipped, and a
      placeholder when nothing was listed. */
  method Listing(inv: map<int, int>) returns (fields: seq<Field>)
    ensures Lists(inv, fields)
  {
    var todo := inv.Keys;
    fields := [];
    while todo != {}
      invariant todo <= inv.Keys
      invariant forall i :: 0 <= i < |fields| ==>
        fields[i].ItemField? && fields[i].item in inv && fields[i].item !in todo
        && inv[fields[i].item] != 0 && fields[i].quantity == inv[fields[i].item]
      invariant forall i, j :: 0 <= i < j < |fields| ==> fields[i].item < fields[j].item
      invariant forall i, k :: 0 <= i < |fields| && k in todo ==> fields[i].item < k
      invariant forall k :: k in inv && k !in todo && inv[k] != 0 ==> ItemField(k, inv[k]) in fields
      decreases todo
    {
      var k := Min(todo);
      todo := todo - {k};
      if inv[k] != 0 {
        fields := fields + [ItemField(k, inv[k])];
      }
    }
    if fields == [] {
      assert forall k :: k in inv ==> inv[k] == 0 || ItemField(k, inv[k]) in fields;
      fields := [Placeholder];
    } else {
      var f := fields[0];
      assert inv[f.item] != 0;
    }
  }

  // ---------------------------------------------------------- item command

  datatype ItemError = NotFound | NotANumber | NoRow

  /** What the `item` command shows: the item's ID and, when the item has a
      cap, the quantity line. */
  datatype ItemInfo = ItemInfo(id: int, quantityLine: Option<int>)

  /** The checks of the `item` command: its argument must be one of the
      items the translations describe, an integer, and a row of the item
      table. */
  function CheckItem(arg: Option<string>, described: set<string>, items: map<int, Item>): (r: Result<ItemInfo, ItemError>)
    ensures r.Ok? <==>
      arg.Some? && arg.value in described && ParseInt(arg.value).Some? && ParseInt(arg.value).value in items
    ensures arg.None? || arg.value !in described ==> r == Err(NotFound)
    ensures r.Ok? ==> (r.value.id == ParseInt(arg.value).value
      && (r.value.quantityLine.Some? <==> items[r.value.id].maxAvailable.Some?)
      && r.value.quantityLine == items[r.value.id].maxAvailable)
  {
    if arg.None? || arg.value !in described then Err(NotFound)
    else match ParseInt(arg.value)
      case None => Err(NotANumber)
      case Some(id) =>
        if id !in items then Err(NoRow)
        else Ok(ItemInfo(id, items[id].maxAvailable))
  }

  // ---------------------------------------------------------------- tables

  class Store {
    /** The `item` table. */
    var items: map<int, Item>
    /** The `inventory` table: the quantity for each (user, item). */
    var rows: map<(int, int), int>

    constructor (items: map<int, Item>, rows: map<(int, int), int>)
      ensures this.items == items && this.rows == rows
    {
      this.items := items;
      this.rows := rows;
    }

    /** `ItemModel.add`: inserts a new item row. */
    method AddItem(id: int, args: ItemArgs)
      requires id !in items
      modifies this
      ensures items == old(items)[id := FromArgs(args)] && rows == old(rows)
    {
      items := items[id := FromArgs(args)];
    }

    /** `ItemModel.get`. */
    function GetItem(id: int): (r: Option<Item>)
      reads this
      ensures r.Some? <==> id in items
      ensures r.Some? ==> r.value == items[id]
    {
      if id in items then Some(items[id]) else None
    }

    /** `get_claimed_amount`: the sum of the quantities held of the item. */
    method ClaimedAmount(item: int) returns (amount: int)
      ensures amount == Total(ItemRows(rows, item))
    {
      amount := Sum(ItemRows(rows, item));
    }

    /** `InventoryModel.get(user)`: the user's quantities, by item. */
    function UserInventory(user: int): (inv: map<int, int>)
      reads this
      ensures forall item :: item in inv <==> (user, item) in rows
      ensures forall item :: item in inv ==> inv[item] == rows[(user, item)]
    {
      map k | k in rows && k.0 == user :: k.1 := rows[k]
    }

    /** `InventoryModel.get(user, item)`: the row, created at 0 when absent. */
    method GetRow(user: int, item: int) returns (quantity: int)
      modifies this
      ensures (user, item) in old(rows) ==> rows == old(rows)
      ensures (user, item) !in old(rows) ==> rows == old(rows)[(user, item) := 0]
      ensures items == old(items)
      ensures quantity == Read(old(rows), (user, item)) && (user, item) in rows && rows[(user, item)] == quantity
    {
      if (user, item) !in rows {
        rows := rows[(user, item) := 0];
      }
      quantity := rows[(user, item)];
    }

    /** `InventoryModel.update`: only the (user, item) row changes. */
    method Update(user: int, item: int, quantity: int, relative: bool) returns (newQuantity: int)
      modifies this
      ensures newQuantity == Updated(Read(old(rows), (user, item)), quantity, relative)
      ensures rows == old(rows)[(user, item) := newQuantity] && items == old(items)
    {
      var previous := GetRow(user, item);
      newQuantity := if relative then previous + quantity else quantity;
      rows := rows[(user, item) := newQuantity];
    }

    /** `create_all_items`: adds every defined item that is not present. */
    method CreateAllItems(specs: map<int, ItemArgs>)
      modifies this
      ensures items == Seeded(old(items), specs) && rows == old(rows)
    {
      var todo := specs.Keys;
      while todo != {}
        invariant todo <= specs.Keys && rows == old(rows)
        invariant items == Seeded(old(items), Restricted(specs, specs.Keys - todo))
        decreases todo
      {
        HasElement(todo);
        var id :| id in todo;
        assert Seeded(old(items), Restricted(specs, specs.Keys - (todo - {id}))) ==
          if id in items then items else items[id := FromArgs(specs[id])];
        if GetItem(id).None? {
          AddItem(id, specs[id]);
        }
        todo := todo - {id};
      }
      assert Restricted(specs, specs.Keys - todo) == specs;
    }

    /** The `inventory` command's fields for a user. */
    method InventoryFields(user: int) returns (fields: seq<Field>)
      ensures Lists(UserInventory(user), fields)
    {
      fields := Listing(UserInventory(user));
    }
  }

  /** The definitions among those with the given IDs. */
  function Restricted(specs: map<int, ItemArgs>, ids: set<int>): (r: map<int, ItemArgs>)
    ensures r.Keys == specs.Keys * ids
    ensures forall id :: id in r ==> r[id] == specs[id]
  {
    map id | id in specs && id in ids :: specs[id]
  }
}
