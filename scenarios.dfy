/** The handler's own test cases (tests/test_agent.py), worked through on the model: each
    starts from the store the test set-up leaves, one restock of `SKU123` with 50 units
    named `Producto X`. */
module Scenarios {
  import opened Wrappers
  import opened Text
  import opened Models
  import opened Storage
  import opened Patterns
  import opened Agent

  /** The store after the test set-up. */
  function SetUp(): (st: StoreState)
    ensures st.inventory == map["SKU123" := ItemValue("SKU123", "Producto X", 50)]
    ensures st.employeeLogs == [] && st.reminders == []
  {
    RestockOutcome(map[], "SKU123", 50, Some("Producto X"));
    StoreState(RestockIn(map[], "SKU123", 50, Some("Producto X")).1, [], [])
  }

  lemma TrimmedIsStripped(t: string)
    requires Trimmed(t)
    ensures Stripped(t) == t
  {
    StripOfPadded([], t, [], IsPySpace);
    assert [] + t + [] == t;
  }

  lemma SearchAtStart<M>(s: string, at: (string, nat) -> Option<M>)
    requires at(s, 0).Some?
    ensures Search(s, at) == at(s, 0)
  {
  }

  /** Without a digit there is neither a sale nor a restock; without an `r` neither a
      reminder nor a shift. */
  lemma NoDigitNoAmount(s: string)
    requires !HasDigit(s)
    ensures FindSale(s).None? && FindRestock(s).None?
  {
  }

  lemma NoRNoVerb(s: string)
    requires !HasLetter(s, 'r')
    ensures FindReminder(s).None? && FindShift(s).None?
  {
  }

  lemma InterpretsAsReminder(command: string, m: ReminderMatch)
    requires Stripped(command) != [] && FindSale(Stripped(command)).None? && FindRestock(Stripped(command)).None?
    requires FindReminder(Stripped(command)) == Some(m)
    ensures Interpret(command) == Ok(Remind(Strip(m.customer, IsPySpace), Strip(m.description, IsPySpace)))
  {
  }

  // "Vendí 10 unidades de SKU123"

  const SaleText := "Vendí 10 unidades de SKU123"

  lemma SaleTextSpaces()
    ensures SpanEnd(SaleText, 5, IsPySpace) == 6 && SpanEnd(SaleText, 8, IsPySpace) == 9
    ensures SpanEnd(SaleText, 17, IsPySpace) == 18 && SpanEnd(SaleText, 20, IsPySpace) == 21
  {
    SaleTextSpaceAt(5);
    SaleTextSpaceAt(8);
    SaleTextSpaceAt(17);
    SaleTextSpaceAt(20);
  }

  lemma SaleTextSpaceAt(i: nat)
    requires i in {5, 8, 17, 20}
    ensures SpanEnd(SaleText, i, IsPySpace) == i + 1
  {
    assert IsPySpace(SaleText[i]) && !IsPySpace(SaleText[i + 1]);
  }

  lemma SaleTextRuns()
    ensures SpanEnd(SaleText, 6, IsDigit) == 8 && SpanEnd(SaleText, 21, IsWordChar) == 27
    ensures SaleText[6..8] == "10" && SaleText[21..27] == "SKU123"
  {
    SaleTextAmountRun();
    SaleTextSkuRun();
  }

  lemma SaleTextAmountRun()
    ensures SpanEnd(SaleText, 6, IsDigit) == 8 && SaleText[6..8] == "10"
  {
  }

  lemma SaleTextSkuRun()
    ensures SpanEnd(SaleText, 21, IsWordChar) == 27 && SaleText[21..27] == "SKU123"
  {
    var s := SaleText;
    assert |s| == 27;
    assert s[21..27] == "SKU123";
    RunOfLiteral(s, 21, "SKU123", IsWordChar);
    SpanEndIsRunEnd(s, 21, 27, IsWordChar);
  }

  lemma SaleTextLiterals()
    ensures LiteralAt(SaleText, 0, "vend") && SameLetter(SaleText[4], 'í')
    ensures LiteralAt(SaleText, 9, "unidade") && PluralAt(SaleText, 16) && LiteralAt(SaleText, 18, "de")
  {
    SaleTextVerb();
    SaleTextUnit();
  }

  lemma SaleTextVerb()
    ensures LiteralAt(SaleText, 0, "vend") && SameLetter(SaleText[4], 'í')
  {
  }

  lemma SaleTextUnit()
    ensures LiteralAt(SaleText, 9, "unidade") && PluralAt(SaleText, 16) && LiteralAt(SaleText, 18, "de")
  {
  }

  /** The quantity clause of the sale text: `10` at 6, `unidades` at 9, `de` at 18 and the
      SKU at 21. */
  lemma SaleTextClause(s: string)
    requires s == SaleText
    ensures ClauseShape(s, 5, Clause(6, 8, 9, 17, 18, 21, 27))
  {
    SaleTextSpaces();
    SaleTextRuns();
    SaleTextLiterals();
  }

  lemma SaleTextMatch(s: string)
    requires s == SaleText
    ensures SaleAt(s, 0) == Some(SaleMatch("10", "SKU123"))
  {
    SaleTextClause(s);
    ClauseIsUnique(s, 5, Clause(6, 8, 9, 17, 18, 21, 27));
    SaleTextRuns();
    SaleTextLiterals();
  }

  lemma SaleTextInterpreted(s: string)
    requires s == SaleText
    ensures Interpret(s) == Ok(Sale("SKU123", 10))
  {
    TrimmedIsStripped(s);
    SaleTextMatch(s);
    SearchAtStart(s, SaleAt);
    SaleTextGroups();
  }

  lemma SaleTextGroups()
    ensures Upper("SKU123") == "SKU123" && NumeralValue("10") == 10
  {
    assert "10"[..1] == "1";
  }

  /** `test_sale_command_reduces_inventory`: the sale is recorded and 40 units remain. */
  lemma SaleReducesInventory(now: Timestamp)
    ensures var (r, st) := Handle(SetUp(), SaleText, now);
      && r.Ok? && r.value.SaleResult? && r.value.quantity == 40
      && st.inventory["SKU123"].quantity == 40
  {
    SaleTextInterpreted(SaleText);
    SaleCommand(SetUp(), SaleText, now, "SKU123", 10);
  }

  // "Recordar a Ana que lleve su pedido mañana"

  /** The reminder test's command, written in pieces so that each piece can be read off:
      the customer `Ana` starts at 11, `que` at 15, the description at 19 and ` mañana` at 34. */
  const ReminderText := "Recordar a " + "Ana" + " q" + "ue " + "lleve su pedido" + " mañana"

  /** A stretch of `s` spelled out as a literal whose every character is in `cls`. */
  lemma RunOfLiteral(s: string, i: nat, lit: string, cls: char -> bool)
    requires i + |lit| <= |s| && s[i..i + |lit|] == lit
    requires forall c :: c in lit ==> cls(c)
    ensures forall k :: i <= k < i + |lit| ==> cls(s[k])
  {
    forall k | i <= k < i + |lit| ensures cls(s[k]) {
      assert s[k] == lit[k - i];
    }
  }

  lemma ReminderTextGroups(s: string)
    requires s == ReminderText
    ensures |s| == 41
    ensures s[11..14] == "Ana" && s[19..34] == "lleve su pedido" && s[35..41] == "mañana"
    ensures s[16..] == "ue " + "lleve su pedido" + " mañana"
  {
  }

  lemma ReminderTextClasses(s: string)
    requires s == ReminderText
    ensures forall c :: c in s ==> IsWordOrSpace(c) && IsNotNewline(c)
  {
  }

  lemma ReminderTextLiterals(s: string)
    requires s == ReminderText
    ensures LiteralAt(s, 0, "recordar") && LiteralAt(s, 9, "a")
    ensures LiteralAt(s, 15, "que") && LiteralAt(s, 35, "mañana")
    ensures !IsPySpace(s[15])
  {
  }

  lemma ReminderTextSpaces(s: string)
    requires s == ReminderText
    ensures SpanEnd(s, 8, IsPySpace) == 9 && SpanEnd(s, 10, IsPySpace) == 11
    ensures SpanEnd(s, 14, IsPySpace) == 15 && SpanEnd(s, 18, IsPySpace) == 19
    ensures SpanEnd(s, 34, IsPySpace) == 35
  {
  }

  lemma ReminderTextRuns(s: string)
    requires s == ReminderText
    ensures SpanEnd(s, 11, IsWordOrSpace) == 41 && SpanEnd(s, 19, IsNotNewline) == 41
  {
    ReminderTextGroups(s);
    ReminderTextClasses(s);
    SpanEndIsRunEnd(s, 11, 41, IsWordOrSpace);
    SpanEndIsRunEnd(s, 19, 41, IsNotNewline);
  }

  /** `.+` runs to the end of the text and gives back ` mañana`. */
  lemma ReminderTextDescription(s: string)
    requires s == ReminderText
    ensures DescriptionEnd(s, 19) == Some(34)
  {
    ReminderTextGroups(s);
    ReminderTextClasses(s);
    ReminderTextLiterals(s);
    ReminderTextSpaces(s);
    ReminderTextRuns(s);
    RunOfLiteral(s, 35, "mañana", c => !IsPySpace(c));
    assert ClosingAt(s, 34);
    LastWhereIs(s, Closing, 19, 41, 34);
  }

  lemma ReminderTextTail(s: string)
    requires s == ReminderText
    ensures TailAt(s, 14) == Some("lleve su pedido")
  {
    ReminderTextGroups(s);
    ReminderTextClasses(s);
    ReminderTextLiterals(s);
    ReminderTextSpaces(s);
    ReminderTextDescription(s);
    LastWhereIs(s, Description, 18, 19, 19);
    assert DescriptionStart(s, 18) == Some(19);
    assert SpacedLiteral(s, 14, "que") == Some(15);
  }

  /** Without a `q` from `j` on, no customer ending at or after `j` is followed by `que`. */
  lemma NoQueAfter(s: string, j: nat)
    requires j <= |s| && !HasLetter(s[j..], 'q')
    ensures forall e: nat :: j <= e <= |s| ==> TailAt(s, e).None?
  {
    forall e: nat | j <= e <= |s| ensures TailAt(s, e).None? {
      if TailAt(s, e).Some? {
        HasLetterInSuffix(s, j, e, 'q');
      }
    }
  }

  lemma HasLetterInSuffix(s: string, i: nat, j: nat, l: char)
    requires i <= j <= |s| && HasLetter(s[j..], l)
    ensures HasLetter(s[i..], l)
  {
    var k :| 0 <= k < |s[j..]| && SameLetter(s[j..][k], l);
    assert s[i..][k + j - i] == s[j..][k];
  }

  lemma ReminderTextRestHasNoQ(s: string)
    requires s == ReminderText
    ensures !HasLetter(s[16..], 'q')
  {
    ReminderTextGroups(s);
    HasLetterIsEitherCase(s[16..], 'q');
  }

  /** After position 16 there is no `q`, and position 15 is not a space, so no later end of
      the customer is followed by `que`. */
  lemma ReminderTextOneQue(s: string)
    requires s == ReminderText
    ensures forall e: nat :: 14 < e <= |s| ==> TailAt(s, e).None?
  {
    ReminderTextGroups(s);
    ReminderTextLiterals(s);
    ReminderTextRestHasNoQ(s);
    NoQueAfter(s, 16);
  }

  /** `[\w\s]+` runs to the end of the text and gives back all but `Ana`. */
  lemma ReminderTextCustomer(s: string)
    requires s == ReminderText
    ensures CustomerEnd(s, 11) == Some(14)
  {
    ReminderTextGroups(s);
    ReminderTextClasses(s);
    ReminderTextRuns(s);
    ReminderTextTail(s);
    ReminderTextOneQue(s);
    LastWhereIs(s, Tail, 11, 41, 14);
  }

  lemma ReminderTextGroupsFound(s: string)
    requires s == ReminderText
    ensures CustomerEnd(s, 11).Some? && ReminderGroups(s, 11) == ReminderMatch("Ana", "lleve su pedido")
  {
    ReminderTextGroups(s);
    ReminderTextCustomer(s);
    ReminderTextTail(s);
  }

  lemma ReminderTextMatch(s: string)
    requires s == ReminderText
    ensures ReminderAt(s, 0) == Some(ReminderMatch("Ana", "lleve su pedido"))
  {
    ReminderTextCustomerAfter(s);
    ReminderTextGroupsFound(s);
    ReminderTextLiterals(s);
    ReminderAtParts(s, 0);
  }

  lemma ReminderTextCustomerAfter(s: string)
    requires s == ReminderText
    ensures CustomerAfter(s, 8) == Some(11)
  {
    ReminderTextLiterals(s);
    ReminderTextSpaces(s);
    ReminderTextGroupsFound(s);
    assert SpacedLiteral(s, 8, "a") == Some(9);
    LastWhereIs(s, Customer, 10, 11, 11);
    assert CustomerStart(s, 10) == Some(11);
  }

  lemma ReminderTextInterpreted(s: string)
    requires s == ReminderText
    ensures Interpret(s) == Ok(Remind("Ana", "lleve su pedido"))
  {
    ReminderTextStripped(s);
    ReminderTextHasNoDigit(s);
    NoDigitNoAmount(s);
    ReminderTextMatch(s);
    SearchAtStart(s, ReminderAt);
    InterpretsAsReminder(s, ReminderMatch("Ana", "lleve su pedido"));
    ReminderGroupsStripped();
  }

  lemma ReminderGroupsStripped()
    ensures Strip("Ana", IsPySpace) == "Ana" && Strip("lleve su pedido", IsPySpace) == "lleve su pedido"
  {
    TrimmedIsStripped("Ana");
    TrimmedIsStripped("lleve su pedido");
  }

  lemma ReminderTextStripped(s: string)
    requires s == ReminderText
    ensures Stripped(s) == s && s != []
  {
    ReminderTextGroups(s);
    TrimmedIsStripped(s);
  }

  lemma ReminderTextHasNoDigit(s: string)
    requires s == ReminderText
    ensures !HasDigit(s)
  {
    HasDigitIsSomeDigit(s);
  }

  /** `test_reminder_command_creates_entry`: one reminder for Ana, due a day later. */
  lemma ReminderCreatesEntry(now: Timestamp)
    ensures var (r, st) := Handle(SetUp(), ReminderText, now);
      && r == Ok(ReminderResult("Ana", "lleve su pedido", now + OneDay))
      && st.reminders == [Reminder("lleve su pedido", now + OneDay, Some("Ana"), map[])]
  {
    ReminderTextInterpreted(ReminderText);
  }

  // "esto no tiene sentido"

  const UnknownText := "esto no tiene sentido"

  lemma UnknownTextHasNoDigit(s: string)
    requires s == UnknownText
    ensures !HasDigit(s)
  {
    HasDigitIsSomeDigit(s);
  }

  lemma UnknownTextHasNoR(s: string)
    requires s == UnknownText
    ensures !HasLetter(s, 'r')
  {
    HasLetterIsEitherCase(s, 'r');
  }

  lemma UnknownTextInterpreted(s: string)
    requires s == UnknownText
    ensures Interpret(s) == ValueError(NotUnderstood)
  {
    TrimmedIsStripped(s);
    UnknownTextHasNoDigit(s);
    UnknownTextHasNoR(s);
    NoDigitNoAmount(s);
    NoRNoVerb(s);
  }

  /** `test_unknown_command_raises_error`: not understood, and nothing changes. */
  lemma UnknownCommandRaises(now: Timestamp)
    ensures Handle(SetUp(), UnknownText, now) == (ValueError(NotUnderstood), SetUp())
  {
    UnknownTextInterpreted(UnknownText);
  }
}
