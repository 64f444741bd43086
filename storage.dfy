/** `DemoStorage`: the in-memory store behind the ERP demo, an inventory keyed by SKU and two
    append-only lists, employee logs and reminders.

    The pure functions `EnsureItemIn`, `RecordSaleIn`, `RestockIn`, `AppendEmployeeLog` and
    `AppendReminder` say what each operation does to the stored values; the class does it in
    place, and each of its methods is proved to do exactly what the matching function says. */
module Storage {
  import opened Wrappers
  import opened Models

  /** The inventory as values: SKU to the item stored under it. */
  type Inventory = map<string, ItemValue>

  /** Everything the store holds, as values. */
  datatype StoreState = StoreState(inventory: Inventory, employeeLogs: seq<EmployeeLog>, reminders: seq<Reminder>)

  const UnknownSkuNeedsName := "Unknown SKU. Provide a name to initialize it."

  function SkuNotFound(sku: string): string {
    "SKU " + sku + " not found"
  }

  /** Python truthiness of an optional name: neither `None` nor the empty string. */
  predicate Given(name: Option<string>) {
    name.Some? && name.value != ""
  }

  /** Every item is filed under its own SKU and holds a non-negative quantity. */
  predicate WellFormed(inv: Inventory) {
    forall sku :: sku in inv ==> inv[sku].sku == sku && inv[sku].quantity >= 0
  }

  /** `b` differs from `a` at most under the key `sku`. */
  predicate AgreeExcept(a: Inventory, b: Inventory, sku: string) {
    && (forall k :: k in a && k != sku ==> k in b && b[k] == a[k])
    && (forall k :: k in b && k != sku ==> k in a)
  }

  /** `ensure_item`: an unknown SKU needs a name and is then created with quantity 0; a known
      SKU is renamed when a non-empty name is given. Nothing else in the inventory changes. */
  function EnsureItemIn(inv: Inventory, sku: string, name: Option<string>): (r: (Result<ItemValue>, Inventory))
    ensures sku !in inv && !Given(name) ==> r == (ValueError(UnknownSkuNeedsName), inv)
    ensures sku !in inv && Given(name) ==> r.0 == Ok(ItemValue(sku, name.value, 0))
    ensures sku in inv ==> r.0 == Ok(inv[sku].(name := if Given(name) then name.value else inv[sku].name))
    ensures r.0.Ok? ==> r.1 == inv[sku := r.0.value]
  {
    if sku !in inv && !Given(name) then (ValueError(UnknownSkuNeedsName), inv)
    else
      var stored := if sku in inv then inv else inv[sku := ItemValue(sku, name.value, 0)];
      var item := stored[sku];
      var renamed := if Given(name) && item.name != name.value then item.(name := name.value) else item;
      (Ok(renamed), stored[sku := renamed])
  }

  /** `record_sale`: an unknown SKU raises; otherwise the item's `sell` decides, and only that
      item's quantity can change. */
  function RecordSaleIn(inv: Inventory, sku: string, amount: int): (r: (Result<ItemValue>, Inventory))
    ensures sku !in inv ==> r == (ValueError(SkuNotFound(sku)), inv)
    ensures sku in inv ==> r.0 == AfterSale(inv[sku], amount)
    ensures r.1 == if r.0.Ok? then inv[sku := r.0.value] else inv
  {
    if sku !in inv then (ValueError(SkuNotFound(sku)), inv)
    else
      match AfterSale(inv[sku], amount)
      case Ok(item) => (Ok(item), inv[sku := item])
      case ValueError(m) => (ValueError(m), inv)
  }

  /** `restock`: `ensure_item` first, then the item's `restock`. When the first step created
      the item and the second raises, the created item stays. */
  function RestockIn(inv: Inventory, sku: string, amount: int, name: Option<string>): (r: (Result<ItemValue>, Inventory))
    ensures EnsureItemIn(inv, sku, name).0.ValueError? ==> r == EnsureItemIn(inv, sku, name)
    ensures EnsureItemIn(inv, sku, name).0.Ok? ==>
      var (ensured, stored) := EnsureItemIn(inv, sku, name);
      && r.0 == AfterRestock(ensured.value, amount)
      && r.1 == if r.0.Ok? then stored[sku := r.0.value] else stored
  {
    var (ensured, stored) := EnsureItemIn(inv, sku, name);
    match ensured
    case ValueError(m) => (ValueError(m), stored)
    case Ok(item) =>
      match AfterRestock(item, amount)
      case Ok(restocked) => (Ok(restocked), stored[sku := restocked])
      case ValueError(m) => (ValueError(m), stored)
  }

  /** `add_employee_log`: one entry at the end; a missing timestamp is the clock's `now`. */
  function AppendEmployeeLog(logs: seq<EmployeeLog>, employeeId: string, event: string, timestamp: Option<Timestamp>, now: Timestamp)
    : (r: (EmployeeLog, seq<EmployeeLog>))
    ensures |r.1| == |logs| + 1 && r.1[..|logs|] == logs && r.1[|logs|] == r.0
    ensures r.0.employeeId == employeeId && r.0.event == event
    ensures r.0.timestamp == if timestamp.Some? then timestamp.value else now
  {
    var log := EmployeeLog(employeeId, event, timestamp.GetOr(now));
    (log, logs + [log])
  }

  /** `add_reminder`: one entry at the end; missing metadata is `{}`. */
  function AppendReminder(reminders: seq<Reminder>, description: string, dueAt: Timestamp, customer: Option<string>,
                          metadata: Option<map<string, string>>)
    : (r: (Reminder, seq<Reminder>))
    ensures |r.1| == |reminders| + 1 && r.1[..|reminders|] == reminders && r.1[|reminders|] == r.0
    ensures r.0.description == description && r.0.dueAt == dueAt && r.0.customer == customer
    ensures r.0.metadata == if metadata.Some? then metadata.value else map[]
  {
    var reminder := Reminder(description, dueAt, customer, metadata.GetOr(map[]));
    (reminder, reminders + [reminder])
  }

  /** `ensure_item` keeps every item under its own SKU with a non-negative quantity, changes
      nothing but the entry under `sku`, and on success leaves the returned item stored
      there. */
  lemma EnsureItemKeepsInvariant(inv: Inventory, sku: string, name: Option<string>)
    requires WellFormed(inv)
    ensures var (r, inv') := EnsureItemIn(inv, sku, name);
      && WellFormed(inv')
      && AgreeExcept(inv, inv', sku)
      && (r.Ok? <==> sku in inv || Given(name))
      && (r.Ok? ==> sku in inv' && inv'[sku] == r.value && r.value.sku == sku)
      && (sku in inv ==> r.Ok? && r.value.quantity == inv[sku].quantity)
  {
  }

  /** A sale keeps the invariant, touches no other SKU, and fails exactly on an unknown SKU,
      a negative amount or too little stock, leaving the inventory as it was. */
  lemma RecordSaleKeepsInvariant(inv: Inventory, sku: string, amount: int)
    requires WellFormed(inv)
    ensures var (r, inv') := RecordSaleIn(inv, sku, amount);
      && WellFormed(inv')
      && AgreeExcept(inv, inv', sku)
      && (r.Ok? <==> sku in inv && 0 <= amount <= inv[sku].quantity)
      && (r.ValueError? ==> inv' == inv)
      && (r.Ok? ==> inv'[sku] == r.value && r.value.quantity == inv[sku].quantity - amount
                    && r.value.name == inv[sku].name)
  {
  }

  /** A restock keeps the invariant and touches no other SKU. With a non-negative amount and
      a SKU that is known or named, it succeeds and raises the quantity by exactly the
      amount, counting from 0 for a new item. */
  lemma RestockKeepsInvariant(inv: Inventory, sku: string, amount: int, name: Option<string>)
    requires WellFormed(inv)
    ensures var (r, inv') := RestockIn(inv, sku, amount, name);
      && WellFormed(inv')
      && AgreeExcept(inv, inv', sku)
      && (r.Ok? <==> (sku in inv || Given(name)) && amount >= 0)
      && (r.Ok? ==> inv'[sku] == r.value
                    && r.value.quantity == (if sku in inv then inv[sku].quantity else 0) + amount)
  {
  }

  /** The order inside `restock` shows: a negative amount for a new, named SKU raises, yet
      the zero-quantity item that `ensure_item` created stays in the inventory. */
  lemma NegativeRestockOfNewSkuKeepsCreatedItem(inv: Inventory, sku: string, amount: int, name: Option<string>)
    requires sku !in inv && Given(name) && amount < 0
    ensures RestockIn(inv, sku, amount, name) == (ValueError(RestockAmountNegative), inv[sku := ItemValue(sku, name.value, 0)])
  {
  }

  /** Restocking a known SKU and selling the same amount gives back the same inventory. */
  lemma RestockThenSaleRestoresInventory(inv: Inventory, sku: string, amount: int)
    requires WellFormed(inv) && sku in inv && amount >= 0
    ensures RestockIn(inv, sku, amount, None).0.Ok?
    ensures RecordSaleIn(RestockIn(inv, sku, amount, None).1, sku, amount) == (Ok(inv[sku]), inv)
  {
    var inv' := RestockIn(inv, sku, amount, None).1;
    assert inv'[sku := inv[sku]] == inv;
  }

  /** A restock by a non-negative amount: an unknown SKU without a name is refused and
      changes nothing; otherwise the item (created with quantity 0 if new, renamed if a name
      is given) gains exactly `amount` units and nothing else changes. */
  lemma RestockOutcome(inv: Inventory, sku: string, amount: int, name: Option<string>)
    requires amount >= 0
    ensures sku !in inv && !Given(name) ==> RestockIn(inv, sku, amount, name) == (ValueError(UnknownSkuNeedsName), inv)
    ensures sku in inv || Given(name) ==>
      var base := if sku in inv then inv[sku] else ItemValue(sku, name.value, 0);
      var v := base.(name := if Given(name) then name.value else base.name, quantity := base.quantity + amount);
      RestockIn(inv, sku, amount, name) == (Ok(v), inv[sku := v])
  {
    var ensured := EnsureItemIn(inv, sku, name);
    if ensured.0.Ok? {
      assert ensured.1[sku := AfterRestock(ensured.0.value, amount).value] == inv[sku := AfterRestock(ensured.0.value, amount).value];
    }
  }

  /** The store. `inventory` maps each SKU to its own `InventoryItem` object, which callers
      may hold on to: the methods return the stored objects themselves. */
  class DemoStorage {
    var inventory: map<string, InventoryItem>
    var employeeLogs: seq<EmployeeLog>
    var reminders: seq<Reminder>

    /** No two SKUs share an item object, and the values are well formed. */
    ghost predicate Valid()
      reads this, inventory.Values
    {
      && (forall a, b :: a in inventory && b in inventory && a != b ==> inventory[a] != inventory[b])
      && WellFormed(Snapshot())
    }

    ghost function Snapshot(): Inventory
      reads this, inventory.Values
    {
      map sku | sku in inventory :: inventory[sku].Value()
    }

    ghost function State(): StoreState
      reads this, inventory.Values
    {
      StoreState(Snapshot(), employeeLogs, reminders)
    }

    /** What a returned item holds now. */
    static ghost function Observe(r: Result<InventoryItem>): Result<ItemValue>
      reads if r.Ok? then {r.value} else {}
    {
      match r
      case Ok(item) => Ok(item.Value())
      case ValueError(m) => ValueError(m)
    }

    constructor ()
      ensures Valid() && State() == StoreState(map[], [], [])
    {
      inventory := map[];
      employeeLogs := [];
      reminders := [];
    }

    /** `get_inventory_snapshot`: the stored items themselves, not copies. */
    method GetInventorySnapshot() returns (r: map<string, InventoryItem>)
      ensures r == inventory
    {
      r := inventory;
    }

    method EnsureItem(sku: string, name: Option<string>) returns (r: Result<InventoryItem>)
      requires Valid()
      modifies this`inventory, inventory.Values
      ensures Valid()
      ensures Observe(r) == EnsureItemIn(old(Snapshot()), sku, name).0
      ensures Snapshot() == EnsureItemIn(old(Snapshot()), sku, name).1
      ensures r.Ok? ==> sku in inventory && r.value == inventory[sku]
      ensures r.Ok? && sku !in old(inventory) ==> fresh(r.value)
      ensures forall k :: k in old(inventory) ==> k in inventory && inventory[k] == old(inventory)[k]
    {
      ghost var before := Snapshot();
      EnsureItemKeepsInvariant(before, sku, name);
      if sku !in inventory {
        if !Given(name) {
          return ValueError(UnknownSkuNeedsName);
        }
        var created := AddItem(sku, name.value);
      }
      var item := inventory[sku];
      Rename(sku, item, name);
      r := Ok(item);
    }

    /** The creating step of `ensure_item`: a new item with quantity 0 under a new SKU. */
    method AddItem(sku: string, name: string) returns (item: InventoryItem)
      requires Valid() && sku !in inventory
      modifies this`inventory
      ensures Valid() && fresh(item) && inventory == old(inventory)[sku := item]
      ensures Snapshot() == old(Snapshot())[sku := ItemValue(sku, name, 0)]
    {
      ghost var snap := Snapshot();
      item := new InventoryItem(sku, name);
      assert forall k :: k in inventory ==> inventory[k] != item && inventory[k].Value() == snap[k];
      inventory := inventory[sku := item];
      assert Snapshot() == snap[sku := item.Value()];
    }

    /** The renaming step of `ensure_item` on the item stored under `sku`: a non-empty name
        that differs replaces the stored one, and only that entry changes. */
    method Rename(sku: string, item: InventoryItem, name: Option<string>)
      requires Valid() && sku in inventory && inventory[sku] == item
      modifies item
      ensures Valid()
      ensures item.Value() == old(item.Value()).(name := if Given(name) then name.value else old(item.name))
      ensures Snapshot() == old(Snapshot())[sku := item.Value()]
    {
      ghost var snap := Snapshot();
      assert forall k :: k in inventory && k != sku ==> inventory[k] != item && inventory[k].Value() == snap[k];
      if Given(name) && item.name != name.value {
        item.name := name.value;
      }
      assert Snapshot() == snap[sku := item.Value()];
    }

    method RecordSale(sku: string, amount: int) returns (r: Result<InventoryItem>)
      requires Valid()
      modifies inventory.Values
      ensures Valid()
      ensures Observe(r) == RecordSaleIn(old(Snapshot()), sku, amount).0
      ensures Snapshot() == RecordSaleIn(old(Snapshot()), sku, amount).1
      ensures r.Ok? ==> sku in inventory && r.value == inventory[sku]
    {
      if sku !in inventory {
        return ValueError(SkuNotFound(sku));
      }
      var item := inventory[sku];
      var sold := item.Sell(amount);
      if sold.ValueError? {
        return ValueError(sold.message);
      }
      r := Ok(item);
    }

    method Restock(sku: string, amount: int, name: Option<string>) returns (r: Result<InventoryItem>)
      requires Valid()
      modifies this`inventory, inventory.Values
      ensures Valid()
      ensures Observe(r) == RestockIn(old(Snapshot()), sku, amount, name).0
      ensures Snapshot() == RestockIn(old(Snapshot()), sku, amount, name).1
      ensures r.Ok? ==> sku in inventory && r.value == inventory[sku]
      ensures forall k :: k in old(inventory) ==> k in inventory && inventory[k] == old(inventory)[k]
    {
      ghost var before := Snapshot();
      var ensured := EnsureItem(sku, name);
      if ensured.ValueError? {
        return ValueError(ensured.message);
      }
      var item := ensured.value;
      var restocked := RestockStored(sku, item, amount);
      if restocked.ValueError? {
        r := ValueError(restocked.message);
      } else {
        r := Ok(item);
      }
    }

    /** `item.restock(amount)` on the item stored under `sku`: only that entry changes. */
    method RestockStored(sku: string, item: InventoryItem, amount: int) returns (r: Result<()>)
      requires Valid() && sku in inventory && inventory[sku] == item
      modifies item
      ensures Valid()
      ensures r == AfterRestock(old(item.Value()), amount).Outcome()
      ensures item.Value() == AfterRestock(old(item.Value()), amount).GetOr(old(item.Value()))
      ensures Snapshot() == old(Snapshot())[sku := item.Value()]
    {
      ghost var snap := Snapshot();
      assert forall k :: k in inventory && k != sku ==> inventory[k] != item && inventory[k].Value() == snap[k];
      r := item.Restock(amount);
      assert Snapshot() == snap[sku := item.Value()];
    }

    method AddEmployeeLog(employeeId: string, event: string, timestamp: Option<Timestamp>, now: Timestamp)
      returns (log: EmployeeLog)
      requires Valid()
      modifies this`employeeLogs
      ensures Valid()
      ensures (log, employeeLogs) == AppendEmployeeLog(old(employeeLogs), employeeId, event, timestamp, now)
    {
      log := EmployeeLog(employeeId, event, if timestamp.Some? then timestamp.value else now);
      employeeLogs := employeeLogs + [log];
    }

    /** `get_employee_logs`: a copy with the stored entries. */
    method GetEmployeeLogs() returns (r: seq<EmployeeLog>)
      ensures r == employeeLogs
    {
      r := employeeLogs;
    }

    method AddReminder(description: string, dueAt: Timestamp, customer: Option<string>, metadata: Option<map<string, string>>)
      returns (reminder: Reminder)
      requires Valid()
      modifies this`reminders
      ensures Valid()
      ensures (reminder, reminders) == AppendReminder(old(reminders), description, dueAt, customer, metadata)
    {
      reminder := Reminder(description, dueAt, customer, if metadata.Some? then metadata.value else map[]);
      reminders := reminders + [reminder];
    }

    /** `get_reminders`: a copy with the stored entries. */
    method GetReminders() returns (r: seq<Reminder>)
      ensures r == reminders
    {
      r := reminders;
    }
  }
}
