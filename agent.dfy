/** `handle_agent_command`: the natural-language command handler. The command is stripped,
    then the four patterns are tried in a fixed order (sale, restock, reminder, shift) and the
    first that is found anywhere in the text decides the action; the action is carried out
    on the store and a summary is returned. Anything else raises `ValueError`.

    `Interpret` is the text half (which action, with which arguments), `Execute` the store
    half on values, `Handle` the two together; `HandleAgentCommand` runs the same steps on
    a `DemoStorage` object and is proved to agree with `Handle`. The clock is the parameter
    `now`. */
module Agent {
  import opened Wrappers
  import opened Text
  import opened Models
  import opened Storage
  import opened Patterns

  const EmptyCommand := "Command cannot be empty"
  const NotUnderstood := "No pude entender el comando. Prueba con una frase más específica."

  /** An understood command, with its arguments normalised as the handler normalises them. */
  datatype Command =
    | Sale(sku: string, amount: nat)
    | Restock(sku: string, amount: nat, name: Option<string>)
    | Remind(customer: string, description: string)
    | Shift(employeeId: string, event: string)

  /** The dictionary the handler returns, one variant per `action`; timestamps stand for
      their ISO text. */
  datatype AgentResult =
    | SaleResult(sku: string, quantity: int, message: string)
    | RestockResult(sku: string, quantity: int, message: string)
    | ReminderResult(customer: string, description: string, dueAt: Timestamp)
    | ShiftResult(employeeId: string, event: string, timestamp: Timestamp)

  /** The command with surrounding whitespace removed, as `str.strip` removes it. */
  function Stripped(command: string): string {
    Strip(command, IsPySpace)
  }

  /** No whitespace at either end. */
  predicate Trimmed(t: string) {
    t == [] || (!IsPySpace(t[0]) && !IsPySpace(t[|t| - 1]))
  }

  function StrippedName(name: Option<string>): Option<string> {
    match name
    case Some(n) => Some(Strip(n, IsPySpace))
    case None => None
  }

  /** Which action a command asks for. The patterns are tried in order and the first one
      found wins; SKUs are upper-cased, employee ids and events lower-cased, and the
      customer, description and product name stripped. */
  function Interpret(command: string): (r: Result<Command>)
    ensures r == ValueError(EmptyCommand) <==> Stripped(command) == []
    ensures (r.Ok? && r.value.Sale?) <==> Stripped(command) != [] && FindSale(Stripped(command)).Some?
    ensures (r.Ok? && r.value.Restock?) <==>
      Stripped(command) != [] && FindSale(Stripped(command)).None? && FindRestock(Stripped(command)).Some?
    ensures (r.Ok? && r.value.Remind?) <==>
      && Stripped(command) != [] && FindSale(Stripped(command)).None? && FindRestock(Stripped(command)).None?
      && FindReminder(Stripped(command)).Some?
    ensures (r.Ok? && r.value.Shift?) <==>
      && Stripped(command) != [] && FindSale(Stripped(command)).None? && FindRestock(Stripped(command)).None?
      && FindReminder(Stripped(command)).None? && FindShift(Stripped(command)).Some?
    ensures r == ValueError(NotUnderstood) <==>
      && Stripped(command) != [] && FindSale(Stripped(command)).None? && FindRestock(Stripped(command)).None?
      && FindReminder(Stripped(command)).None? && FindShift(Stripped(command)).None?
    ensures r.Ok? && (r.value.Sale? || r.value.Restock?) ==> r.value.sku != [] && Upper(r.value.sku) == r.value.sku
    ensures r.Ok? && r.value.Restock? && r.value.name.Some? ==> Trimmed(r.value.name.value)
    ensures r.Ok? && r.value.Remind? ==> Trimmed(r.value.customer) && Trimmed(r.value.description)
    ensures r.Ok? && r.value.Shift? ==> r.value.event in {"entrada", "salida"}
    ensures r.Ok? && r.value.Shift? ==> r.value.employeeId != [] && Lower(r.value.employeeId) == r.value.employeeId
  {
    var t := Stripped(command);
    if t == [] then ValueError(EmptyCommand)
    else
      match FindSale(t)
      case Some(m) =>
        UpperIsCanonical(m.sku);
        Ok(Sale(Upper(m.sku), NumeralValue(m.amount)))
      case None =>
        match FindRestock(t)
        case Some(m) =>
          UpperIsCanonical(m.sku);
          Ok(Restock(Upper(m.sku), NumeralValue(m.amount), StrippedName(m.name)))
        case None =>
          match FindReminder(t)
          case Some(m) => Ok(Remind(Strip(m.customer, IsPySpace), Strip(m.description, IsPySpace)))
          case None =>
            match FindShift(t)
            case Some(m) =>
              LowerIsCanonical(m.employee);
              Ok(Shift(Lower(m.employee), Lower(m.event)))
            case None => ValueError(NotUnderstood)
  }

  /** Each argument of an understood command is the matching group of the pattern that
      decided, normalised: the SKU upper-cased and the amount read as a decimal numeral, the
      product name, customer and description stripped, the employee id and event
      lower-cased. */
  lemma InterpretFields(command: string)
    ensures var r, t := Interpret(command), Stripped(command);
      && (r.Ok? && r.value.Sale? ==>
            r.value == Sale(Upper(FindSale(t).value.sku), NumeralValue(FindSale(t).value.amount)))
      && (r.Ok? && r.value.Restock? ==>
            r.value == Restock(Upper(FindRestock(t).value.sku), NumeralValue(FindRestock(t).value.amount),
                               StrippedName(FindRestock(t).value.name)))
      && (r.Ok? && r.value.Remind? ==>
            r.value == Remind(Strip(FindReminder(t).value.customer, IsPySpace),
                              Strip(FindReminder(t).value.description, IsPySpace)))
      && (r.Ok? && r.value.Shift? ==>
            r.value == Shift(Lower(FindShift(t).value.employee), Lower(FindShift(t).value.event)))
  {
  }

  const SalePrefix := "Venta registrada. Quedan "
  const RestockPrefix := "Inventario actualizado. Hay "
  const UnitsOf := " unidades de "

  /** The reply to a sale: the stock left and the product name. */
  function SaleMessage(v: ItemValue): string {
    SalePrefix + StockText(v)
  }

  /** The reply to a restock: the new stock and the product name. */
  function RestockMessage(v: ItemValue): string {
    RestockPrefix + StockText(v)
  }

  /** `{quantity} unidades de {name}`, the part both replies share. */
  function StockText(v: ItemValue): string {
    IntToString(v.quantity) + UnitsOf + v.name
  }

  /** `str` of an integer is a sign and digits, never a space. */
  lemma IntToStringHasNoSpace(i: int, k: nat)
    requires k < |IntToString(i)|
    ensures IntToString(i)[k] != ' '
  {
    var t := IntToString(i);
    if 0 < k && i < 0 {
      assert t[k] == t[1..][k - 1];
    }
  }

  /** The quantity text ends at the first space after it. */
  lemma QuantityEndsAtSpace(q: int, n: string)
    ensures var x := IntToString(q) + UnitsOf + n;
      x[|IntToString(q)|] == ' ' && forall k :: 0 <= k < |IntToString(q)| ==> x[k] != ' '
  {
    var x := IntToString(q) + UnitsOf + n;
    forall k | 0 <= k < |IntToString(q)| ensures x[k] != ' ' {
      IntToStringHasNoSpace(q, k);
    }
  }

  /** So the number and the name can be read back from what follows the prefix. */
  lemma QuantityTextIsUnique(q1: int, n1: string, q2: int, n2: string)
    requires IntToString(q1) + UnitsOf + n1 == IntToString(q2) + UnitsOf + n2
    ensures q1 == q2 && n1 == n2
  {
    var a, b := IntToString(q1), IntToString(q2);
    var x := a + UnitsOf + n1;
    QuantityEndsAtSpace(q1, n1);
    QuantityEndsAtSpace(q2, n2);
    assert |a| == |b|;
    assert a == x[..|a|] == b;
    IntToStringIsInjective(q1, q2);
    assert n1 == x[|a| + |UnitsOf|..] == n2;
  }

  /** `int` reads `str(i)` back as `i`, so different integers have different texts. */
  lemma IntToStringIsInjective(i: int, j: int)
    requires IntToString(i) == IntToString(j)
    ensures i == j
  {
    var t := IntToString(i);
    if i < 0 {
      assert NumeralValue(t[1..]) == -i && NumeralValue(t[1..]) == -j;
    }
  }

  lemma DropPrefix(prefix: string, t1: string, t2: string)
    requires prefix + t1 == prefix + t2
    ensures t1 == t2
  {
    assert t1 == (prefix + t1)[|prefix|..];
  }

  /** A sale reply names exactly one stock level and one product name. */
  lemma SaleMessageIdentifiesItem(v: ItemValue, w: ItemValue)
    ensures SaleMessage(v) == SaleMessage(w) <==> v.quantity == w.quantity && v.name == w.name
  {
    if SaleMessage(v) == SaleMessage(w) {
      DropPrefix(SalePrefix, StockText(v), StockText(w));
      QuantityTextIsUnique(v.quantity, v.name, w.quantity, w.name);
    }
  }

  /** A restock reply names exactly one stock level and one product name. */
  lemma RestockMessageIdentifiesItem(v: ItemValue, w: ItemValue)
    ensures RestockMessage(v) == RestockMessage(w) <==> v.quantity == w.quantity && v.name == w.name
  {
    if RestockMessage(v) == RestockMessage(w) {
      DropPrefix(RestockPrefix, StockText(v), StockText(w));
      QuantityTextIsUnique(v.quantity, v.name, w.quantity, w.name);
    }
  }

  /** A sale reply is never mistaken for a restock reply. */
  lemma RepliesDiffer(v: ItemValue, w: ItemValue)
    ensures SaleMessage(v) != RestockMessage(w)
  {
    assert SaleMessage(v)[0] == 'V' && RestockMessage(w)[0] == 'I';
  }

  /** Carries out an understood command on the store. */
  function Execute(st: StoreState, cmd: Command, now: Timestamp): (r: (Result<AgentResult>, StoreState))
    ensures cmd.Sale? || cmd.Restock? ==> r.1.employeeLogs == st.employeeLogs && r.1.reminders == st.reminders
    ensures cmd.Remind? ==> r == (Ok(ReminderResult(cmd.customer, cmd.description, now + OneDay)),
      st.(reminders := st.reminders + [Reminder(cmd.description, now + OneDay, Some(cmd.customer), map[])]))
    ensures cmd.Shift? ==> r == (Ok(ShiftResult(cmd.employeeId, cmd.event, now)),
      st.(employeeLogs := st.employeeLogs + [EmployeeLog(cmd.employeeId, cmd.event, now)]))
  {
    match cmd
    case Sale(sku, amount) =>
      var (item, inv) := RecordSaleIn(st.inventory, sku, amount);
      (match item
       case Ok(v) => Ok(SaleResult(sku, v.quantity, SaleMessage(v)))
       case ValueError(m) => ValueError(m),
       st.(inventory := inv))
    case Restock(sku, amount, name) =>
      var (item, inv) := RestockIn(st.inventory, sku, amount, name);
      (match item
       case Ok(v) => Ok(RestockResult(sku, v.quantity, RestockMessage(v)))
       case ValueError(m) => ValueError(m),
       st.(inventory := inv))
    case Remind(customer, description) =>
      var (reminder, reminders) := AppendReminder(st.reminders, description, now + OneDay, Some(customer), None);
      (Ok(ReminderResult(reminder.customer.value, reminder.description, reminder.dueAt)), st.(reminders := reminders))
    case Shift(employeeId, event) =>
      var (log, logs) := AppendEmployeeLog(st.employeeLogs, employeeId, event, None, now);
      (Ok(ShiftResult(log.employeeId, log.event, log.timestamp)), st.(employeeLogs := logs))
  }

  /** `handle_agent_command` on values: a command that is not understood raises before the
      store is touched. */
  function Handle(st: StoreState, command: string, now: Timestamp): (r: (Result<AgentResult>, StoreState))
    ensures Interpret(command).ValueError? ==> r == (ValueError(Interpret(command).message), st)
    ensures Interpret(command).Ok? ==> r == Execute(st, Interpret(command).value, now)
  {
    match Interpret(command)
    case ValueError(m) => (ValueError(m), st)
    case Ok(cmd) => Execute(st, cmd, now)
  }

  /** `handle_agent_command` on the store object: the same decisions as `Handle`, carried
      out by the store's own methods. */
  method HandleAgentCommand(store: DemoStorage, command: string, now: Timestamp) returns (r: Result<AgentResult>)
    requires store.Valid()
    modifies store, store.inventory.Values
    ensures store.Valid()
    ensures (r, store.State()) == Handle(old(store.State()), command, now)
  {
    var parsed := Interpret(command);
    if parsed.ValueError? {
      return ValueError(parsed.message);
    }
    r := ExecuteOn(store, parsed.value, now);
  }

  /** Carries out an understood command with the store's methods, as `Execute` says. */
  method ExecuteOn(store: DemoStorage, cmd: Command, now: Timestamp) returns (r: Result<AgentResult>)
    requires store.Valid()
    modifies store, store.inventory.Values
    ensures store.Valid()
    ensures (r, store.State()) == Execute(old(store.State()), cmd, now)
  {
    ghost var before := store.State();
    match cmd
    case Sale(sku, amount) =>
      r := SellOn(store, sku, amount, now);
    case Restock(sku, amount, name) =>
      r := RestockOn(store, sku, amount, name, now);
    case Remind(customer, description) =>
      var reminder := store.AddReminder(description, now + OneDay, Some(customer), None);
      r := Ok(ReminderResult(reminder.customer.value, reminder.description, reminder.dueAt));
      assert store.Snapshot() == before.inventory;
    case Shift(employeeId, event) =>
      var log := store.AddEmployeeLog(employeeId, event, None, now);
      r := Ok(ShiftResult(log.employeeId, log.event, log.timestamp));
      assert store.Snapshot() == before.inventory;
  }

  /** The sale branch; `now` is not read, and is there so that the contract can name the
      same `Execute` call as the caller's. */
  method SellOn(store: DemoStorage, sku: string, amount: nat, now: Timestamp) returns (r: Result<AgentResult>)
    requires store.Valid()
    modifies store.inventory.Values
    ensures store.Valid()
    ensures (r, store.State()) == Execute(old(store.State()), Sale(sku, amount), now)
  {
    var item := store.RecordSale(sku, amount);
    if item.ValueError? {
      r := ValueError(item.message);
    } else {
      var v := item.value.Value();
      r := Ok(SaleResult(sku, v.quantity, SaleMessage(v)));
    }
  }

  /** The restock branch; `now` is not read either. */
  method RestockOn(store: DemoStorage, sku: string, amount: nat, name: Option<string>, now: Timestamp) returns (r: Result<AgentResult>)
    requires store.Valid()
    modifies store`inventory, store.inventory.Values
    ensures store.Valid()
    ensures (r, store.State()) == Execute(old(store.State()), Restock(sku, amount, name), now)
  {
    var item := store.Restock(sku, amount, name);
    if item.ValueError? {
      r := ValueError(item.message);
    } else {
      var v := item.value.Value();
      r := Ok(RestockResult(sku, v.quantity, RestockMessage(v)));
    }
  }

  /** Whitespace around a command does not change how it is read. */
  lemma InterpretIgnoresSurroundingSpace(command: string)
    ensures Interpret(Stripped(command)) == Interpret(command)
  {
    StripIdempotent(command, IsPySpace);
  }

  /** A sale command: an unknown SKU and a sale beyond the stock are refused and change
      nothing; otherwise exactly `amount` units leave that one item, and the reply reports
      the stock left. */
  lemma SaleCommand(st: StoreState, command: string, now: Timestamp, sku: string, amount: nat)
    requires Interpret(command) == Ok(Sale(sku, amount))
    ensures var (r, st') := Handle(st, command, now);
      && (sku !in st.inventory ==> r == ValueError(SkuNotFound(sku)) && st' == st)
      && (sku in st.inventory && amount > st.inventory[sku].quantity ==> r == ValueError(NotEnoughInventory) && st' == st)
      && (sku in st.inventory && amount <= st.inventory[sku].quantity ==>
            var v := st.inventory[sku].(quantity := st.inventory[sku].quantity - amount);
            r == Ok(SaleResult(sku, v.quantity, SaleMessage(v))) && st' == st.(inventory := st.inventory[sku := v]))
  {
    if sku in st.inventory {
      assert RecordSaleIn(st.inventory, sku, amount).0 == AfterSale(st.inventory[sku], amount);
    }
  }

  /** A restock command: an unknown SKU without a name is refused and changes nothing;
      otherwise the item (created with quantity 0 if new, renamed if a name is given) gains
      exactly `amount` units, and the reply reports the new stock. */
  lemma RestockCommand(st: StoreState, command: string, now: Timestamp, sku: string, amount: nat, name: Option<string>)
    requires Interpret(command) == Ok(Restock(sku, amount, name))
    ensures var (r, st') := Handle(st, command, now);
      && (sku !in st.inventory && !Given(name) ==> r == ValueError(UnknownSkuNeedsName) && st' == st)
      && (sku in st.inventory || Given(name) ==>
            var base := if sku in st.inventory then st.inventory[sku] else ItemValue(sku, name.value, 0);
            var v := base.(name := if Given(name) then name.value else base.name, quantity := base.quantity + amount);
            r == Ok(RestockResult(sku, v.quantity, RestockMessage(v))) && st' == st.(inventory := st.inventory[sku := v]))
  {
    RestockOutcome(st.inventory, sku, amount, name);
  }

  /** Whatever the handler refuses, it refuses without changing the store: the amount is a
      run of digits, so the one refusal that comes after `ensure_item` has created an item
      (a negative restock) cannot happen. */
  lemma {:induction false} FailureChangesNothing(st: StoreState, command: string, now: Timestamp)
    ensures Handle(st, command, now).0.ValueError? ==> Handle(st, command, now).1 == st
  {
    match Interpret(command)
    case ValueError(_) =>
    case Ok(cmd) =>
      match cmd
      case Sale(sku, amount) => SaleCommand(st, command, now, sku, amount);
      case Restock(sku, amount, name) => RestockCommand(st, command, now, sku, amount, name);
      case Remind(_, _) =>
      case Shift(_, _) =>
  }

  /** The reply to a sale or a restock reports the quantity now stored under its SKU and the
      stored name. */
  lemma {:induction false} ReplyReportsStoredItem(st: StoreState, command: string, now: Timestamp)
    ensures var (r, st') := Handle(st, command, now);
      r.Ok? && (r.value.SaleResult? || r.value.RestockResult?) ==>
        && r.value.sku in st'.inventory
        && r.value.quantity == st'.inventory[r.value.sku].quantity
        && r.value.message == (if r.value.SaleResult? then SaleMessage else RestockMessage)(st'.inventory[r.value.sku])
  {
    match Interpret(command)
    case ValueError(_) =>
    case Ok(cmd) =>
      match cmd
      case Sale(sku, amount) => SaleCommand(st, command, now, sku, amount);
      case Restock(sku, amount, name) => RestockCommand(st, command, now, sku, amount, name);
      case Remind(_, _) =>
      case Shift(_, _) =>
  }

  /** The handler keeps every item under its own SKU with a non-negative quantity. */
  lemma {:induction false} HandleKeepsWellFormed(st: StoreState, command: string, now: Timestamp)
    requires WellFormed(st.inventory)
    ensures WellFormed(Handle(st, command, now).1.inventory)
  {
    match Interpret(command)
    case ValueError(_) =>
    case Ok(cmd) =>
      match cmd
      case Sale(sku, amount) => RecordSaleKeepsInvariant(st.inventory, sku, amount);
      case Restock(sku, amount, name) => RestockKeepsInvariant(st.inventory, sku, amount, name);
      case Remind(_, _) =>
      case Shift(_, _) =>
  }

  /** A reminder command appends exactly one reminder, due one day after `now`, for the
      stripped customer, with empty metadata; a shift command appends exactly one log stamped
      `now`. Neither touches the inventory. */
  lemma {:induction false} RecordsAreAppended(st: StoreState, command: string, now: Timestamp)
    ensures var (r, st') := Handle(st, command, now);
      && (r.Ok? && r.value.ReminderResult? ==>
            && st'.inventory == st.inventory && st'.employeeLogs == st.employeeLogs
            && st'.reminders == st.reminders + [Reminder(r.value.description, now + OneDay, Some(r.value.customer), map[])]
            && r.value.dueAt == now + OneDay)
      && (r.Ok? && r.value.ShiftResult? ==>
            && st'.inventory == st.inventory && st'.reminders == st.reminders
            && st'.employeeLogs == st.employeeLogs + [EmployeeLog(r.value.employeeId, r.value.event, now)]
            && r.value.timestamp == now && r.value.event in {"entrada", "salida"})
  {
    match Interpret(command)
    case ValueError(_) =>
    case Ok(cmd) =>
      match cmd
      case Sale(sku, amount) => SaleCommand(st, command, now, sku, amount);
      case Restock(sku, amount, name) => RestockCommand(st, command, now, sku, amount, name);
      case Remind(_, _) =>
      case Shift(_, _) =>
  }
}
