/** The ERP records: the inventory item with its quantity rules, the employee log entry and
    the customer reminder. */
module Models {
  import opened Wrappers

  /** A naive UTC `datetime`, as microseconds since the epoch. */
  type Timestamp = int

  /** `timedelta(days=1)` in microseconds. */
  const OneDay: int := 86_400_000_000

  const SaleAmountNegative := "Sale amount must be positive"
  const NotEnoughInventory := "Not enough inventory to complete sale"
  const RestockAmountNegative := "Restock amount must be positive"

  /** The value held by an `InventoryItem` at one moment. */
  datatype ItemValue = ItemValue(sku: string, name: string, quantity: int)

  /** What `sell(amount)` does to an item. A sale succeeds exactly when the amount is
      between 0 and the stock; then it removes exactly that amount, never drives the stock
      below zero and leaves sku and name alone. A refused sale names its reason. */
  function AfterSale(v: ItemValue, amount: int): (r: Result<ItemValue>)
    ensures r.Ok? <==> 0 <= amount <= v.quantity
    ensures r.Ok? ==>
      r.value.sku == v.sku && r.value.name == v.name && r.value.quantity == v.quantity - amount && r.value.quantity >= 0
    ensures amount < 0 ==> r == ValueError(SaleAmountNegative)
    ensures 0 <= amount && v.quantity < amount ==> r == ValueError(NotEnoughInventory)
  {
    if amount < 0 then ValueError(SaleAmountNegative)
    else if amount > v.quantity then ValueError(NotEnoughInventory)
    else Ok(v.(quantity := v.quantity - amount))
  }

  /** What `restock(amount)` does to an item. A restock succeeds exactly when the amount is
      not negative; then it adds exactly that amount and leaves sku and name alone. */
  function AfterRestock(v: ItemValue, amount: int): (r: Result<ItemValue>)
    ensures r.Ok? <==> amount >= 0
    ensures r.Ok? ==> r.value.sku == v.sku && r.value.name == v.name && r.value.quantity == v.quantity + amount
    ensures amount < 0 ==> r == ValueError(RestockAmountNegative)
  {
    if amount < 0 then ValueError(RestockAmountNegative)
    else Ok(v.(quantity := v.quantity + amount))
  }

  /** Amount 0 is accepted by both operations and changes nothing. */
  lemma ZeroAmountChangesNothing(v: ItemValue)
    requires v.quantity >= 0
    ensures AfterSale(v, 0) == Ok(v)
    ensures AfterRestock(v, 0) == Ok(v)
  {
  }

  /** Selling what was just restocked gives back the original item. */
  lemma RestockThenSellRestores(v: ItemValue, amount: int)
    requires v.quantity >= 0 && amount >= 0
    ensures AfterRestock(v, amount).Ok?
    ensures AfterSale(AfterRestock(v, amount).value, amount) == Ok(v)
  {
  }

  /** `InventoryItem`: a dataclass whose `sell` and `restock` change `quantity` in place. */
  class InventoryItem {
    var sku: string
    var name: string
    var quantity: int

    function Value(): ItemValue
      reads this
    {
      ItemValue(sku, name, quantity)
    }

    /** `InventoryItem(sku=sku, name=name)`: the quantity defaults to 0. */
    constructor (sku: string, name: string)
      ensures Value() == ItemValue(sku, name, 0)
    {
      this.sku := sku;
      this.name := name;
      this.quantity := 0;
    }

    method Sell(amount: int) returns (r: Result<()>)
      modifies this`quantity
      ensures r == AfterSale(old(Value()), amount).Outcome()
      ensures Value() == AfterSale(old(Value()), amount).GetOr(old(Value()))
    {
      if amount < 0 {
        return ValueError(SaleAmountNegative);
      }
      if amount > quantity {
        return ValueError(NotEnoughInventory);
      }
      quantity := quantity - amount;
      return Ok(());
    }

    method Restock(amount: int) returns (r: Result<()>)
      modifies this`quantity
      ensures r == AfterRestock(old(Value()), amount).Outcome()
      ensures Value() == AfterRestock(old(Value()), amount).GetOr(old(Value()))
    {
      if amount < 0 {
        return ValueError(RestockAmountNegative);
      }
      quantity := quantity + amount;
      return Ok(());
    }
  }

  /** `EmployeeLog`: who, which event, when. */
  datatype EmployeeLog = EmployeeLog(employeeId: string, event: string, timestamp: Timestamp)

  /** `Reminder`: what, when it is due, for whom, and free-form metadata. */
  datatype Reminder = Reminder(description: string, dueAt: Timestamp, customer: Option<string>, metadata: map<string, string>)
}
