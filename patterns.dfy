/** The agent's four command patterns, matched as Python's `re.search` with `re.IGNORECASE`
    matches them: the leftmost start position with a match wins; at that position every
    quantifier is greedy, alternatives are tried left to right, and the engine backtracks in
    that order until the rest of the pattern matches.

      sale      vend[ií]\s+(?P<amount>\d+)\s+unidades?\s+de\s+(?P<sku>\w+)
      restock   (agregu[eé]|sum[aé])\s+(?P<amount>\d+)\s+unidades?\s+de\s+(?P<sku>\w+)
                  (?:\s+como\s+(?P<name>[\w\s]+))?
      reminder  recordar\s+a\s+(?P<customer>[\w\s]+)\s+que\s+(?P<description>.+)\s+mañana
      shift     (registr[aá]|marca)\s+(?P<event>entrada|salida)\s+de\s+(?P<employee>\w+)

    Each matcher returns the named groups of the match it finds. */
module Patterns {
  import opened Wrappers
  import opened Text

  datatype SaleMatch = SaleMatch(amount: string, sku: string)
  datatype RestockMatch = RestockMatch(amount: string, sku: string, name: Option<string>)
  datatype ReminderMatch = ReminderMatch(customer: string, description: string)
  datatype ShiftMatch = ShiftMatch(event: string, employee: string)

  /** `[\w\s]`. */
  predicate IsWordOrSpace(c: char) {
    IsWordChar(c) || IsPySpace(c)
  }

  /** Every character of `t` is in `cls` and there is at least one. */
  predicate NonEmptyRun(t: string, cls: char -> bool) {
    |t| > 0 && forall k :: 0 <= k < |t| ==> cls(t[k])
  }

  /** Some character of `s` is the letter `l`, in either case. */
  predicate HasLetter(s: string, l: char) {
    exists k :: 0 <= k < |s| && SameLetter(s[k], l)
  }

  /** Some character of `s` is a decimal digit. */
  predicate HasDigit(s: string) {
    exists k :: 0 <= k < |s| && IsDigit(s[k])
  }

  /** `j - i` characters of `cls` from `i`, at least one. */
  predicate Run(s: string, i: nat, j: nat, cls: char -> bool) {
    i < j <= |s| && forall k :: i <= k < j ==> cls(s[k])
  }

  /** The characters of a run, taken out of the subject. */
  lemma RunSlice(s: string, i: nat, j: nat, cls: char -> bool)
    requires Run(s, i, j, cls)
    ensures NonEmptyRun(s[i..j], cls)
  {
    forall k | 0 <= k < j - i ensures cls(s[i..j][k]) {
      assert s[i..j][k] == s[i + k];
    }
  }

  /** `\s+` matches from `i` to `j`: at least one character, all of them whitespace. */
  predicate Spaces(s: string, i: nat, j: nat) {
    i < j <= |s| && forall k :: i <= k < j ==> IsPySpace(s[k])
  }

  /** One subject character against one pattern character under IGNORECASE. */
  predicate SameLetter(c: char, letter: char) {
    LowerChar(c) == LowerChar(letter)
  }

  /** The literal `lit` occurs at `i`, ignoring case. */
  predicate LiteralAt(s: string, i: nat, lit: string)
    ensures LiteralAt(s, i, lit) ==> i + |lit| <= |s|
  {
    LiteralFrom(s, i, lit, 0)
  }

  /** Characters `k..` of `lit` occur at `i + k..`, ignoring case. */
  predicate LiteralFrom(s: string, i: nat, lit: string, k: nat)
    requires k <= |lit|
    ensures LiteralFrom(s, i, lit, k) ==> i + |lit| <= |s|
    decreases |lit| - k
  {
    if k == |lit| then i + k <= |s|
    else i + k < |s| && SameLetter(s[i + k], lit[k]) && LiteralFrom(s, i, lit, k + 1)
  }

  lemma {:induction false} LiteralFromLetters(s: string, i: nat, lit: string, k: nat)
    requires k <= |lit| && LiteralFrom(s, i, lit, k)
    ensures forall j :: k <= j < |lit| ==> SameLetter(s[i + j], lit[j])
    decreases |lit| - k
  {
    if k < |lit| {
      LiteralFromLetters(s, i, lit, k + 1);
    }
  }

  /** Text matched by a lower-case literal lower-cases to that literal. */
  lemma LiteralAtLowers(s: string, i: nat, lit: string)
    requires LiteralAt(s, i, lit)
    requires Lower(lit) == lit
    ensures Lower(s[i..i + |lit|]) == lit
  {
    LiteralFromLetters(s, i, lit, 0);
    forall j | 0 <= j < |lit| ensures Lower(s[i..i + |lit|])[j] == lit[j] {
      assert LowerChar(lit[j]) == Lower(lit)[j] == lit[j];
    }
  }

  /** `re.search` from position `p` on: the match at the leftmost position at or after `p`
      where `at` matches, if any. */
  function SearchFrom<M>(s: string, at: (string, nat) -> Option<M>, p: nat): (r: Option<M>)
    ensures r.None? <==> forall q :: p <= q <= |s| ==> at(s, q).None?
    ensures r.Some? ==> exists q :: p <= q <= |s| && at(s, q) == r && forall q' :: p <= q' < q ==> at(s, q').None?
    decreases |s| - p
  {
    if p > |s| then None
    else if at(s, p).Some? then at(s, p)
    else SearchFrom(s, at, p + 1)
  }

  /** `re.search`: the match at the leftmost position where `at` matches, if any. */
  function Search<M>(s: string, at: (string, nat) -> Option<M>): (r: Option<M>)
    ensures r.None? <==> forall p :: 0 <= p <= |s| ==> at(s, p).None?
    ensures r.Some? ==> exists p :: 0 <= p <= |s| && at(s, p) == r && forall q :: 0 <= q < p ==> at(s, q).None?
  {
    SearchFrom(s, at, 0)
  }

  /** The characters `start..end` of a subject. */
  datatype Span = Span(start: nat, end: nat)

  /** Where the parts of `\s+(?P<amount>\d+)\s+unidades?\s+de\s+(?P<sku>\w+)` lie: the amount
      is `amountAt..amountEnd`, the word `unidade(s)` is `unitAt..unitEnd`, `de` starts at
      `deAt`, and the SKU is `skuAt..end`. */
  datatype Clause = Clause(amountAt: nat, amountEnd: nat, unitAt: nat, unitEnd: nat, deAt: nat, skuAt: nat, end: nat)

  /** `cl` is a match of the quantity clause from `i`: whitespace and a run of digits,
      whitespace and `unidade` with an optional `s`, whitespace and `de`, and whitespace and
      a run of word characters that is not followed by another word character. */
  predicate ClauseShape(s: string, i: nat, cl: Clause) {
    && Spaces(s, i, cl.amountAt) && Run(s, cl.amountAt, cl.amountEnd, IsDigit)
    && UnitShape(s, cl.amountEnd, cl.unitAt, cl.unitEnd)
    && Spaces(s, cl.unitEnd, cl.deAt) && LiteralAt(s, cl.deAt, "de")
    && RunShape(s, cl.deAt + 2, cl.skuAt, cl.end, IsWordChar)
  }

  /** `\s+unidades?` from `d`: the word starts at `b` and ends at `u`. */
  predicate UnitShape(s: string, d: nat, b: nat, u: nat) {
    Spaces(s, d, b) && LiteralAt(s, b, "unidade") && (u == b + 7 || (u == b + 8 && PluralAt(s, b + 7)))
  }

  /** The optional `s` of `unidades?` at `j`. */
  predicate PluralAt(s: string, j: nat) {
    j < |s| && SameLetter(s[j], 's')
  }

  /** `\s+` and then a run of `cls` from `i`, both taken whole: the start and end of the
      run. */
  function SpacedRun(s: string, i: nat, cls: char -> bool): (r: Option<Span>)
    ensures r.Some? ==> RunShape(s, i, r.value.start, r.value.end, cls)
  {
    if i > |s| then None
    else
      var a := SpanEnd(s, i, IsPySpace);
      var d := SpanEnd(s, a, cls);
      if a == i || d == a then None else Some(Span(a, d))
  }

  /** Whitespace from `i` to `a`, then a run of `cls` from `a` to `d` that is not followed by
      another character of `cls`. */
  predicate RunShape(s: string, i: nat, a: nat, d: nat, cls: char -> bool) {
    Spaces(s, i, a) && Run(s, a, d, cls) && (d == |s| || !cls(s[d]))
  }

  /** A run that does not start with whitespace is found by `SpacedRun`. */
  lemma SpacedRunUnique(s: string, i: nat, a: nat, d: nat, cls: char -> bool)
    requires RunShape(s, i, a, d, cls) && !IsPySpace(s[a])
    ensures SpacedRun(s, i, cls) == Some(Span(a, d))
  {
    SpanEndIsRunEnd(s, i, a, IsPySpace);
    SpanEndIsRunEnd(s, a, d, cls);
  }

  /** `\s+` and then the literal `lit` from `i`: where the literal starts. */
  function SpacedLiteral(s: string, i: nat, lit: string): (r: Option<nat>)
    ensures r.Some? ==> Spaces(s, i, r.value) && LiteralAt(s, r.value, lit)
  {
    if i > |s| then None
    else
      var b := SpanEnd(s, i, IsPySpace);
      if b == i || !LiteralAt(s, b, lit) then None else Some(b)
  }

  /** A literal that starts with a small ASCII letter is found by `SpacedLiteral`. */
  lemma SpacedLiteralUnique(s: string, i: nat, b: nat, lit: string)
    requires Spaces(s, i, b) && LiteralAt(s, b, lit)
    requires |lit| > 0 && 'a' <= lit[0] <= 'z'
    ensures SpacedLiteral(s, i, lit) == Some(b)
  {
    LiteralFromLetters(s, b, lit, 0);
    assert SameLetter(s[b], lit[0]);
    SpanEndIsRunEnd(s, i, b, IsPySpace);
  }

  /** `\s+unidades?` from `d`. `s?` is taken only when a space follows it, and the
      singular `unidad` does not match at all. */
  function UnitAt(s: string, d: nat): (r: Option<Span>)
    ensures r.Some? ==> UnitShape(s, d, r.value.start, r.value.end)
  {
    var b := SpacedLiteral(s, d, "unidade");
    if b.None? then None
    else Some(Span(b.value, if PluralAt(s, b.value + 7) then b.value + 8 else b.value + 7))
  }

  /** The word `unidades?` is found by `UnitAt`, with the `s` whenever there is one. */
  lemma UnitAtUnique(s: string, d: nat, b: nat, u: nat)
    requires UnitShape(s, d, b, u) && (u == |s| || IsPySpace(s[u]))
    ensures UnitAt(s, d) == Some(Span(b, u))
  {
    SpacedLiteralUnique(s, d, b, "unidade");
    if u == b + 7 {
      assert !PluralAt(s, b + 7);
    }
  }

  /** The quantity clause tried at `i`. The classes next to each other never overlap (see
      `Text.ClassRelations`), so each run is taken whole. */
  function QuantityClauseAt(s: string, i: nat): Option<Clause> {
    var amount := SpacedRun(s, i, IsDigit);
    if amount.None? then None
    else
      var unit := UnitAt(s, amount.value.end);
      if unit.None? then None
      else SkuAfter(s, amount.value, unit.value)
  }

  /** `\s+de\s+(?P<sku>\w+)`, the rest of the quantity clause once the amount and the
      word `unidades?` are found. */
  function SkuAfter(s: string, amount: Span, unit: Span): Option<Clause> {
    var de := SpacedLiteral(s, unit.end, "de");
    if de.None? then None
    else
      var sku := SpacedRun(s, de.value + 2, IsWordChar);
      if sku.None? then None
      else Some(Clause(amount.start, amount.end, unit.start, unit.end, de.value, sku.value.start, sku.value.end))
  }

  /** What `QuantityClauseAt` finds is a match of the clause, and it has a digit. */
  lemma ClauseFound(s: string, i: nat)
    ensures QuantityClauseAt(s, i).Some? ==> ClauseShape(s, i, QuantityClauseAt(s, i).value) && HasDigit(s)
  {
    if QuantityClauseAt(s, i).Some? {
      var cl := QuantityClauseAt(s, i).value;
      assert IsDigit(s[cl.amountAt]);
    }
  }

  /** `QuantityClauseAt` puts together what its four parts find. */
  lemma ClauseFromPieces(s: string, i: nat, cl: Clause)
    requires SpacedRun(s, i, IsDigit) == Some(Span(cl.amountAt, cl.amountEnd))
    requires UnitAt(s, cl.amountEnd) == Some(Span(cl.unitAt, cl.unitEnd))
    requires SpacedLiteral(s, cl.unitEnd, "de") == Some(cl.deAt)
    requires SpacedRun(s, cl.deAt + 2, IsWordChar) == Some(Span(cl.skuAt, cl.end))
    ensures QuantityClauseAt(s, i) == Some(cl)
  {
    SkuFromPieces(s, cl);
  }

  /** `SkuAfter` puts together what its two parts find. */
  lemma SkuFromPieces(s: string, cl: Clause)
    requires SpacedLiteral(s, cl.unitEnd, "de") == Some(cl.deAt)
    requires SpacedRun(s, cl.deAt + 2, IsWordChar) == Some(Span(cl.skuAt, cl.end))
    ensures SkuAfter(s, Span(cl.amountAt, cl.amountEnd), Span(cl.unitAt, cl.unitEnd)) == Some(cl)
  {
  }

  /** When the quantity clause can match from `i` at all, `QuantityClauseAt` finds that
      match, and it is the only one. */
  lemma ClauseIsUnique(s: string, i: nat, cl: Clause)
    requires ClauseShape(s, i, cl)
    ensures QuantityClauseAt(s, i) == Some(cl)
  {
    AmountIsUnique(s, i, cl);
    SkuIsUnique(s, cl);
    ClauseFromPieces(s, i, cl);
  }

  /** The amount and the word `unidades?` of a clause are the ones the matcher finds. */
  lemma AmountIsUnique(s: string, i: nat, cl: Clause)
    requires ClauseShape(s, i, cl)
    ensures SpacedRun(s, i, IsDigit) == Some(Span(cl.amountAt, cl.amountEnd))
    ensures UnitAt(s, cl.amountEnd) == Some(Span(cl.unitAt, cl.unitEnd))
  {
    ClassRelations(s[cl.amountAt]);
    ClassRelations(s[cl.amountEnd]);
    SpacedRunUnique(s, i, cl.amountAt, cl.amountEnd, IsDigit);
    UnitAtUnique(s, cl.amountEnd, cl.unitAt, cl.unitEnd);
  }

  /** The `de` and the SKU of a clause are the ones the matcher finds. */
  lemma SkuIsUnique(s: string, cl: Clause)
    requires Spaces(s, cl.unitEnd, cl.deAt) && LiteralAt(s, cl.deAt, "de")
    requires RunShape(s, cl.deAt + 2, cl.skuAt, cl.end, IsWordChar)
    ensures SpacedLiteral(s, cl.unitEnd, "de") == Some(cl.deAt)
    ensures SpacedRun(s, cl.deAt + 2, IsWordChar) == Some(Span(cl.skuAt, cl.end))
  {
    SpacedLiteralUnique(s, cl.unitEnd, cl.deAt, "de");
    ClassRelations(s[cl.skuAt]);
    SpacedRunUnique(s, cl.deAt + 2, cl.skuAt, cl.end, IsWordChar);
  }

  /** When `QuantityClauseAt` finds nothing at `i`, the clause cannot match there. */
  lemma ClauseNeverMatches(s: string, i: nat)
    requires QuantityClauseAt(s, i).None?
    ensures forall cl :: !ClauseShape(s, i, cl)
  {
    forall cl ensures !ClauseShape(s, i, cl) {
      if ClauseShape(s, i, cl) {
        ClauseIsUnique(s, i, cl);
      }
    }
  }

  /** The groups of a quantity clause: a numeral and a run of word characters. */
  lemma ClauseGroups(s: string, i: nat, cl: Clause)
    requires ClauseShape(s, i, cl)
    ensures IsNumeral(s[cl.amountAt..cl.amountEnd]) && NonEmptyRun(s[cl.skuAt..cl.end], IsWordChar)
  {
    RunSlice(s, cl.skuAt, cl.end, IsWordChar);
  }

  /** `vend[ií]` at `p`. */
  predicate SaleVerbAt(s: string, p: nat) {
    LiteralAt(s, p, "vend") && p + 4 < |s| && (SameLetter(s[p + 4], 'i') || SameLetter(s[p + 4], 'í'))
  }

  /** The sale pattern tried at `p`. */
  function SaleAt(s: string, p: nat): (r: Option<SaleMatch>)
    ensures r.Some? ==> IsNumeral(r.value.amount) && NonEmptyRun(r.value.sku, IsWordChar)
    ensures r.Some? ==> HasDigit(s)
  {
    if !SaleVerbAt(s, p) then None
    else
      var cl := QuantityClauseAt(s, p + 5);
      if cl.None? then None
      else
        ClauseFound(s, p + 5);
        ClauseGroups(s, p + 5, cl.value);
        Some(SaleMatch(s[cl.value.amountAt..cl.value.amountEnd], s[cl.value.skuAt..cl.value.end]))
  }

  /** The sale pattern matches at `p` with its quantity clause at `cl`. */
  predicate SaleShape(s: string, p: nat, cl: Clause) {
    SaleVerbAt(s, p) && ClauseShape(s, p + 5, cl)
  }

  /** `SaleAt` finds a match exactly when the sale pattern can match at `p`, and its groups
      are the amount and the SKU of that match. */
  lemma SaleAtShape(s: string, p: nat)
    ensures SaleAt(s, p).Some? <==> exists cl :: SaleShape(s, p, cl)
    ensures SaleAt(s, p).Some? ==> exists cl ::
      SaleShape(s, p, cl) && SaleAt(s, p).value == SaleMatch(s[cl.amountAt..cl.amountEnd], s[cl.skuAt..cl.end])
  {
    if SaleVerbAt(s, p) {
      ClauseFound(s, p + 5);
      if QuantityClauseAt(s, p + 5).Some? {
        var cl := QuantityClauseAt(s, p + 5).value;
        assert SaleShape(s, p, cl);
        assert SaleAt(s, p).value == SaleMatch(s[cl.amountAt..cl.amountEnd], s[cl.skuAt..cl.end]);
      } else {
        ClauseNeverMatches(s, p + 5);
      }
    }
  }

  /** `(?:\s+como\s+(?P<name>[\w\s]+))?` after the SKU ending at `w`: `None` when the group
      does not take part in the match. When the spaces after `como` are followed by no word
      character, the engine gives the last space back to the name, which is then that one
      space. */
  function NameAt(s: string, w: nat): (r: Option<string>)
    ensures r.Some? ==> NonEmptyRun(r.value, IsWordOrSpace)
  {
    var x := SpacedLiteral(s, w, "como");
    if x.None? then None
    else
      var y := SpanEnd(s, x.value + 4, IsPySpace);
      if y == x.value + 4 then None
      else if y < |s| && IsWordChar(s[y]) then
        var m := SpanEnd(s, y, IsWordOrSpace);
        RunSlice(s, y, m, IsWordOrSpace);
        Some(s[y..m])
      else if y - 1 > x.value + 4 then
        RunSlice(s, y - 1, y, IsWordOrSpace);
        Some(s[y - 1..y])
      else None
  }

  /** `\s+como\s+(?P<name>[\w\s]+)` matches from `w` with `como` at `x` and the name at
      `n..m`, a run of word and space characters that is not followed by another one. */
  predicate NameShape(s: string, w: nat, x: nat, n: nat, m: nat) {
    && Spaces(s, w, x) && LiteralAt(s, x, "como") && Spaces(s, x + 4, n)
    && Run(s, n, m, IsWordOrSpace) && (m == |s| || !IsWordOrSpace(s[m]))
  }

  /** The name `NameAt` finds is the group of a match of the optional part. */
  lemma NameAtShape(s: string, w: nat)
    ensures NameAt(s, w).Some? ==> exists x: nat, n: nat, m: nat :: NameShape(s, w, x, n, m) && NameAt(s, w).value == s[n..m]
  {
    var x := SpacedLiteral(s, w, "como");
    if x.Some? {
      var y := SpanEnd(s, x.value + 4, IsPySpace);
      if y == x.value + 4 {
      } else if y < |s| && IsWordChar(s[y]) {
        var m := SpanEnd(s, y, IsWordOrSpace);
        assert NameShape(s, w, x.value, y, m);
        assert NameAt(s, w).value == s[y..m];
      } else if y - 1 > x.value + 4 {
        assert NameShape(s, w, x.value, y - 1, y);
        assert NameAt(s, w).value == s[y - 1..y];
      }
    }
  }

  /** Whenever the optional part matches from `w`, `NameAt` finds a name, and it strips to
      the same text as the group of that match: the engine may hand the name more or fewer
      of the spaces after `como`, and that is all that can differ. */
  lemma NameShapeFound(s: string, w: nat, x: nat, n: nat, m: nat)
    requires NameShape(s, w, x, n, m)
    ensures NameAt(s, w).Some?
    ensures Strip(NameAt(s, w).value, IsPySpace) == Strip(s[n..m], IsPySpace)
  {
    assert "como"[0] == 'c';
    SpacedLiteralUnique(s, w, x, "como");
    var y := SpanEnd(s, x + 4, IsPySpace);
    assert n <= y;
    assert y <= m;
    if y < |s| && IsWordChar(s[y]) {
      SpanEndIsRunEnd(s, y, m, IsWordOrSpace);
      assert NameAt(s, w).value == s[y..m];
      assert s[n..m] == s[n..y] + s[y..m];
      StripOfLeading(s[n..y], s[y..m], IsPySpace);
    } else {
      assert m == y;
      assert NameAt(s, w).value == s[y - 1..y];
      assert forall k :: 0 <= k < m - n ==> IsPySpace(s[n..m][k]);
    }
  }

  /** `NameAt` finds no name exactly when the optional part does not match from `w`. */
  lemma NameAtNoneIff(s: string, w: nat)
    ensures NameAt(s, w).None? <==> forall x: nat, n: nat, m: nat :: !NameShape(s, w, x, n, m)
  {
    NameAtShape(s, w);
    forall x: nat, n: nat, m: nat | NameShape(s, w, x, n, m) ensures NameAt(s, w).Some? {
      NameShapeFound(s, w, x, n, m);
    }
  }

  /** `(agregu[eé]|sum[aé])` at `p`: the position after the verb. */
  function RestockVerbAt(s: string, p: nat): (r: Option<nat>)
    ensures r.Some? ==> p < r.value <= |s|
    ensures r.Some? ==>
      || (LiteralAt(s, p, "agregu") && p + 6 < |s| && (SameLetter(s[p + 6], 'e') || SameLetter(s[p + 6], 'é')) && r.value == p + 7)
      || (LiteralAt(s, p, "sum") && p + 3 < |s| && (SameLetter(s[p + 3], 'a') || SameLetter(s[p + 3], 'é')) && r.value == p + 4)
  {
    if LiteralAt(s, p, "agregu") && p + 6 < |s| && (SameLetter(s[p + 6], 'e') || SameLetter(s[p + 6], 'é')) then Some(p + 7)
    else if LiteralAt(s, p, "sum") && p + 3 < |s| && (SameLetter(s[p + 3], 'a') || SameLetter(s[p + 3], 'é')) then Some(p + 4)
    else None
  }

  /** The restock pattern tried at `p`. */
  function RestockAt(s: string, p: nat): (r: Option<RestockMatch>)
    ensures r.Some? ==> IsNumeral(r.value.amount) && NonEmptyRun(r.value.sku, IsWordChar)
    ensures r.Some? && r.value.name.Some? ==> NonEmptyRun(r.value.name.value, IsWordOrSpace)
    ensures r.Some? ==> HasDigit(s)
  {
    var i := RestockVerbAt(s, p);
    if i.None? then None
    else
      var cl := QuantityClauseAt(s, i.value);
      if cl.None? then None
      else
        ClauseFound(s, i.value);
        ClauseGroups(s, i.value, cl.value);
        Some(RestockMatch(s[cl.value.amountAt..cl.value.amountEnd], s[cl.value.skuAt..cl.value.end], NameAt(s, cl.value.end)))
  }

  /** The restock verb matches at `p` and the quantity clause after it at `cl`. */
  predicate RestockShape(s: string, p: nat, cl: Clause) {
    RestockVerbAt(s, p).Some? && ClauseShape(s, RestockVerbAt(s, p).value, cl)
  }

  /** `RestockAt` finds a match exactly when the restock pattern can match at `p`; its
      groups are the amount and the SKU of that match and the name that follows it. */
  lemma RestockAtShape(s: string, p: nat)
    ensures RestockAt(s, p).Some? <==> exists cl :: RestockShape(s, p, cl)
    ensures RestockAt(s, p).Some? ==> exists cl ::
      RestockShape(s, p, cl) && RestockAt(s, p).value == RestockMatch(s[cl.amountAt..cl.amountEnd], s[cl.skuAt..cl.end], NameAt(s, cl.end))
  {
    var i := RestockVerbAt(s, p);
    if i.Some? {
      ClauseFound(s, i.value);
      if QuantityClauseAt(s, i.value).Some? {
        var cl := QuantityClauseAt(s, i.value).value;
        assert RestockShape(s, p, cl);
        assert RestockAt(s, p).value == RestockMatch(s[cl.amountAt..cl.amountEnd], s[cl.skuAt..cl.end], NameAt(s, cl.end));
      } else {
        ClauseNeverMatches(s, i.value);
      }
    }
  }

  /** `\s+mañana` at `f`. */
  predicate ClosingAt(s: string, f: nat) {
    f <= |s| && var m := SpanEnd(s, f, IsPySpace); m > f && LiteralAt(s, m, "mañana")
  }

  /** The four places where the reminder pattern backtracks. A greedy `.+`, `[\w\s]+` or
      `\s+` first takes the longest run it can and then gives it back one character at a
      time until what follows it matches; the tag names what has to follow:
        Closing       `\s+mañana`, after the description's `.+`;
        Description   the description and the closing, after the `\s+` that follows `que`;
        Tail          `\s+que\s+…\s+mañana`, after the customer's `[\w\s]+`;
        Customer      the customer and the rest, after the `\s+` that follows `a`. */
  datatype Backtrack = Closing | Description | Tail | Customer

  /** How deep in the pattern the backtracking point lies, counted from its end. */
  function Depth(b: Backtrack): nat {
    match b
    case Closing => 0
    case Description => 1
    case Tail => 2
    case Customer => 3
  }

  /** What has to follow the backtracking point `b` matches from `x`. */
  predicate Follows(s: string, b: Backtrack, x: nat)
    decreases Depth(b), 0, 0
  {
    match b
    case Closing => ClosingAt(s, x)
    case Description => x <= |s| && DescriptionEnd(s, x).Some?
    case Tail => TailAt(s, x).Some?
    case Customer => x <= |s| && CustomerEnd(s, x).Some?
  }

  /** The largest `x` with `lo < x <= hi` from which what follows `b` matches: the run
      that ends at `hi`, given back one character at a time. */
  function LastWhere(s: string, b: Backtrack, lo: nat, hi: nat): (r: Option<nat>)
    ensures r.Some? ==> lo < r.value <= hi
    decreases Depth(b), 1, hi
  {
    if hi <= lo then None else if Follows(s, b, hi) then Some(hi) else LastWhere(s, b, lo, hi - 1)
  }

  /** `LastWhere` stops at the largest such `x`, and finds nothing only when there is none. */
  lemma LastWhereIsLast(s: string, b: Backtrack, lo: nat, hi: nat)
    ensures LastWhere(s, b, lo, hi).Some? ==> Follows(s, b, LastWhere(s, b, lo, hi).value)
    ensures LastWhere(s, b, lo, hi).Some? ==> forall x :: LastWhere(s, b, lo, hi).value < x <= hi ==> !Follows(s, b, x)
    ensures LastWhere(s, b, lo, hi).None? ==> forall x :: lo < x <= hi ==> !Follows(s, b, x)
  {
    LastWhereFollows(s, b, lo, hi);
    LastWhereNoneLater(s, b, lo, hi);
  }

  lemma {:induction false} LastWhereFollows(s: string, b: Backtrack, lo: nat, hi: nat)
    ensures LastWhere(s, b, lo, hi).Some? ==> Follows(s, b, LastWhere(s, b, lo, hi).value)
    decreases hi
  {
    if lo < hi && !Follows(s, b, hi) {
      assert LastWhere(s, b, lo, hi) == LastWhere(s, b, lo, hi - 1);
      LastWhereFollows(s, b, lo, hi - 1);
    }
  }

  /** Nothing after what `LastWhere` finds (after `lo` when it finds nothing) is followed by
      what follows `b`. */
  lemma {:induction false} LastWhereNoneLater(s: string, b: Backtrack, lo: nat, hi: nat)
    ensures forall x :: Floor(LastWhere(s, b, lo, hi), lo) < x <= hi ==> !Follows(s, b, x)
    decreases hi
  {
    if lo < hi && !Follows(s, b, hi) {
      assert LastWhere(s, b, lo, hi) == LastWhere(s, b, lo, hi - 1);
      LastWhereNoneLater(s, b, lo, hi - 1);
    }
  }

  function Floor(r: Option<nat>, lo: nat): nat {
    if r.Some? then r.value else lo
  }

  /** Conversely, the largest `x` in range from which what follows `b` matches is the one
      `LastWhere` finds. */
  lemma LastWhereIs(s: string, b: Backtrack, lo: nat, hi: nat, x: nat)
    requires lo < x <= hi && Follows(s, b, x)
    requires forall y :: x < y <= hi ==> !Follows(s, b, y)
    ensures LastWhere(s, b, lo, hi) == Some(x)
  {
    LastWhereIsLast(s, b, lo, hi);
  }

  /** The greedy end of `(?P<description>.+)` started at `d`: the last position within the
      line after which `\s+mañana` matches. */
  function DescriptionEnd(s: string, d: nat): (r: Option<nat>)
    requires d <= |s|
    ensures r.Some? ==> d < r.value <= |s| && forall k :: d <= k < r.value ==> IsNotNewline(s[k])
    decreases 0, 2, 0
  {
    LastWhere(s, Closing, d, SpanEnd(s, d, IsNotNewline))
  }

  /** `DescriptionEnd` is greedy: `\s+mañana` follows the end it finds, no later end within
      the line is followed by it, and when it finds nothing, no end is. */
  lemma DescriptionEndIsLast(s: string, d: nat)
    requires d <= |s|
    ensures DescriptionEnd(s, d).Some? ==> ClosingAt(s, DescriptionEnd(s, d).value)
    ensures DescriptionEnd(s, d).Some? ==>
      forall f :: DescriptionEnd(s, d).value < f <= SpanEnd(s, d, IsNotNewline) ==> !ClosingAt(s, f)
    ensures DescriptionEnd(s, d).None? ==> forall f :: d < f <= SpanEnd(s, d, IsNotNewline) ==> !ClosingAt(s, f)
  {
    var hi := SpanEnd(s, d, IsNotNewline);
    LastWhereIsLast(s, Closing, d, hi);
    forall f | d < f <= hi ensures Follows(s, Closing, f) == ClosingAt(s, f) {
    }
  }

  /** Where the description starts when `que` ends at `q`: the last position within the
      spaces after `q` from which the description and the closing `\s+mañana` match. */
  function DescriptionStart(s: string, q: nat): (r: Option<nat>)
    requires q <= |s|
    ensures r.Some? ==> q < r.value <= SpanEnd(s, q, IsPySpace)
    decreases 1, 2, 0
  {
    LastWhere(s, Description, q, SpanEnd(s, q, IsPySpace))
  }

  /** The description starts after at least one space, at the last such start from which
      the rest matches, and when it finds nothing, no start is. */
  lemma DescriptionStartIsLast(s: string, q: nat)
    requires q <= |s|
    ensures DescriptionStart(s, q).Some? ==> Spaces(s, q, DescriptionStart(s, q).value)
    ensures DescriptionStart(s, q).Some? ==> DescriptionEnd(s, DescriptionStart(s, q).value).Some?
    ensures DescriptionStart(s, q).Some? ==>
      forall d :: DescriptionStart(s, q).value < d <= SpanEnd(s, q, IsPySpace) ==> DescriptionEnd(s, d).None?
    ensures DescriptionStart(s, q).None? ==> forall d :: q < d <= SpanEnd(s, q, IsPySpace) ==> DescriptionEnd(s, d).None?
  {
    var hi := SpanEnd(s, q, IsPySpace);
    LastWhereIsLast(s, Description, q, hi);
    forall d | q < d <= hi ensures Follows(s, Description, d) == DescriptionEnd(s, d).Some? {
    }
  }

  /** What follows the customer, `\s+que\s+(?P<description>.+)\s+mañana`, from `e`: the
      description. The spaces after `que` are given back one at a time, so a description
      may start with a space. (`DescriptionStart` stops only where `DescriptionEnd` finds an
      end, so the inner `None` is never taken.) */
  function TailAt(s: string, e: nat): (r: Option<string>)
    ensures r.Some? ==> NonEmptyRun(r.value, IsNotNewline)
    ensures r.Some? ==> e < |s| && IsPySpace(s[e]) && HasLetter(s[e..], 'q')
    decreases 1, 3, 0
  {
    var t := SpacedLiteral(s, e, "que");
    if t.None? then None
    else
      var d := DescriptionStart(s, t.value + 3);
      if d.None? then None
      else
        match DescriptionEnd(s, d.value)
        case None => None
        case Some(f) =>
          QueIsLetter(s, e, t.value);
          RunSlice(s, d.value, f, IsNotNewline);
          Some(s[d.value..f])
  }

  lemma QueIsLetter(s: string, e: nat, t: nat)
    requires Spaces(s, e, t) && LiteralAt(s, t, "que")
    ensures HasLetter(s[e..], 'q')
  {
    LiteralFromLetters(s, t, "que", 0);
    assert SameLetter(s[e..][t - e], 'q');
  }

  /** `\s+que\s+` matches from `e` with `que` at `t`, and the description starts at `d`. */
  predicate TailShape(s: string, e: nat, t: nat, d: nat) {
    Spaces(s, e, t) && LiteralAt(s, t, "que") && DescriptionStart(s, t + 3) == Some(d)
  }

  /** The description `TailAt` finds runs from its start to its greedy end. */
  lemma TailAtShape(s: string, e: nat)
    ensures TailAt(s, e).Some? ==> exists t: nat, d: nat ::
      TailShape(s, e, t, d) && DescriptionEnd(s, d).Some? && TailAt(s, e).value == s[d..DescriptionEnd(s, d).value]
  {
    var t := SpacedLiteral(s, e, "que");
    if t.Some? && DescriptionStart(s, t.value + 3).Some? {
      var d := DescriptionStart(s, t.value + 3).value;
      DescriptionStartIsLast(s, t.value + 3);
      assert TailShape(s, e, t.value, d);
    }
  }

  /** The greedy end of `(?P<customer>[\w\s]+)` started at `c`. */
  function CustomerEnd(s: string, c: nat): (r: Option<nat>)
    requires c <= |s|
    ensures r.Some? ==> c < r.value <= |s| && forall k :: c <= k < r.value ==> IsWordOrSpace(s[k])
    decreases 2, 2, 0
  {
    LastWhere(s, Tail, c, SpanEnd(s, c, IsWordOrSpace))
  }

  /** `CustomerEnd` is greedy: the rest of the pattern follows the end it finds, no later
      end within the run of word and space characters is followed by it, and when it finds
      nothing, no end is. */
  lemma CustomerEndIsLast(s: string, c: nat)
    requires c <= |s|
    ensures CustomerEnd(s, c).Some? ==> TailAt(s, CustomerEnd(s, c).value).Some?
    ensures CustomerEnd(s, c).Some? ==>
      forall e :: CustomerEnd(s, c).value < e <= SpanEnd(s, c, IsWordOrSpace) ==> TailAt(s, e).None?
    ensures CustomerEnd(s, c).None? ==> forall e :: c < e <= SpanEnd(s, c, IsWordOrSpace) ==> TailAt(s, e).None?
  {
    var hi := SpanEnd(s, c, IsWordOrSpace);
    LastWhereIsLast(s, Tail, c, hi);
    forall e | c < e <= hi ensures Follows(s, Tail, e) == TailAt(s, e).Some? {
    }
  }

  /** The customer and description of a reminder whose customer starts at `c`. */
  function ReminderGroups(s: string, c: nat): (r: ReminderMatch)
    requires c <= |s| && CustomerEnd(s, c).Some?
    ensures NonEmptyRun(r.customer, IsWordOrSpace) && NonEmptyRun(r.description, IsNotNewline)
    ensures r.customer == s[c..CustomerEnd(s, c).value]
    ensures Some(r.description) == TailAt(s, CustomerEnd(s, c).value)
  {
    var e := CustomerEnd(s, c).value;
    CustomerEndIsLast(s, c);
    RunSlice(s, c, e, IsWordOrSpace);
    ReminderMatch(s[c..e], TailAt(s, e).value)
  }

  /** Where the customer starts when the `a` ends at `q`: the last position within the
      spaces after `q` from which the rest of the pattern matches. */
  function CustomerStart(s: string, q: nat): (r: Option<nat>)
    requires q <= |s|
    ensures r.Some? ==> q < r.value <= SpanEnd(s, q, IsPySpace)
  {
    LastWhere(s, Customer, q, SpanEnd(s, q, IsPySpace))
  }

  /** The customer starts after at least one space, at the last such start from which the
      rest matches, and when it finds nothing, no start is. */
  lemma CustomerStartIsLast(s: string, q: nat)
    requires q <= |s|
    ensures CustomerStart(s, q).Some? ==> Spaces(s, q, CustomerStart(s, q).value)
    ensures CustomerStart(s, q).Some? ==> CustomerEnd(s, CustomerStart(s, q).value).Some?
    ensures CustomerStart(s, q).Some? ==>
      forall c :: CustomerStart(s, q).value < c <= SpanEnd(s, q, IsPySpace) ==> CustomerEnd(s, c).None?
    ensures CustomerStart(s, q).None? ==> forall c :: q < c <= SpanEnd(s, q, IsPySpace) ==> CustomerEnd(s, c).None?
  {
    var hi := SpanEnd(s, q, IsPySpace);
    LastWhereIsLast(s, Customer, q, hi);
    forall c | q < c <= hi ensures Follows(s, Customer, c) == CustomerEnd(s, c).Some? {
    }
  }

  /** The reminder pattern tried at `p`. The spaces after `a` are given back one at a time
      before the customer's end is, so the customer is the longest one for which the rest
      matches. */
  function ReminderAt(s: string, p: nat): (r: Option<ReminderMatch>)
    ensures r.Some? ==> NonEmptyRun(r.value.customer, IsWordOrSpace) && NonEmptyRun(r.value.description, IsNotNewline)
    ensures r.Some? ==> HasLetter(s, 'r')
  {
    if !LiteralAt(s, p, "recordar") then None
    else
      var c := CustomerAfter(s, p + 8);
      if c.None? then None
      else
        LiteralFromLetters(s, p, "recordar", 0);
        assert SameLetter(s[p], 'r');
        Some(ReminderGroups(s, c.value))
  }

  /** `\s+a\s+` from `i`, once `recordar` is found: where the customer starts. */
  function CustomerAfter(s: string, i: nat): (r: Option<nat>)
    ensures r.Some? ==> r.value <= |s| && CustomerEnd(s, r.value).Some?
  {
    var a := SpacedLiteral(s, i, "a");
    if a.None? then None
    else
      var c := CustomerStart(s, a.value + 1);
      if c.None? then None
      else
        CustomerStartIsLast(s, a.value + 1);
        c
  }

  /** `\s+a\s+` matches from `i` with its `a` at `a`, and the customer starts at `c`. */
  predicate CustomerShape(s: string, i: nat, a: nat, c: nat) {
    Spaces(s, i, a) && LiteralAt(s, a, "a") && CustomerStart(s, a + 1) == Some(c)
  }

  /** `CustomerAfter` finds the start that `CustomerStart` finds after `\s+a`. */
  lemma CustomerAfterShape(s: string, i: nat)
    ensures CustomerAfter(s, i).Some? ==> exists a: nat :: CustomerShape(s, i, a, CustomerAfter(s, i).value)
  {
    var a := SpacedLiteral(s, i, "a");
    if a.Some? && CustomerStart(s, a.value + 1).Some? {
      assert CustomerShape(s, i, a.value, CustomerAfter(s, i).value);
    }
  }

  /** `ReminderAt` is `recordar` followed by what `CustomerAfter` finds. */
  lemma ReminderAtParts(s: string, p: nat)
    ensures ReminderAt(s, p).Some? <==> LiteralAt(s, p, "recordar") && CustomerAfter(s, p + 8).Some?
    ensures ReminderAt(s, p).Some? ==> ReminderAt(s, p).value == ReminderGroups(s, CustomerAfter(s, p + 8).value)
  {
  }

  /** `recordar\s+a\s+` matches at `p` with its `a` at `a`, and the customer starts at `c`. */
  predicate ReminderShape(s: string, p: nat, a: nat, c: nat) {
    LiteralAt(s, p, "recordar") && CustomerShape(s, p + 8, a, c)
  }

  /** The groups `ReminderAt` finds are those of the customer's start and greedy end. */
  lemma ReminderAtShape(s: string, p: nat)
    ensures ReminderAt(s, p).Some? ==> exists a: nat, c: nat ::
      ReminderShape(s, p, a, c) && CustomerEnd(s, c).Some? && ReminderAt(s, p).value == ReminderGroups(s, c)
  {
    if ReminderAt(s, p).Some? {
      ReminderAtParts(s, p);
      var c := CustomerAfter(s, p + 8).value;
      ReminderShapeFromParts(s, p, c);
      var a: nat :| ReminderShape(s, p, a, c);
      assert ReminderShape(s, p, a, c) && ReminderAt(s, p).value == ReminderGroups(s, c);
    }
  }

  /** `recordar` followed by what `CustomerAfter` finds is a match of `recordar\s+a\s+`. */
  lemma ReminderShapeFromParts(s: string, p: nat, c: nat)
    requires LiteralAt(s, p, "recordar") && CustomerAfter(s, p + 8) == Some(c)
    ensures exists a: nat :: ReminderShape(s, p, a, c)
  {
    CustomerAfterShape(s, p + 8);
    var a: nat :| CustomerShape(s, p + 8, a, c);
    assert ReminderShape(s, p, a, c);
  }

  /** `(registr[aá]|marca)` at `p`: the position after the verb. */
  function ShiftVerbAt(s: string, p: nat): (r: Option<nat>)
    ensures r.Some? ==> p < r.value <= |s|
    ensures r.Some? ==> HasLetter(s, 'r')
  {
    if LiteralAt(s, p, "registr") && p + 7 < |s| && (SameLetter(s[p + 7], 'a') || SameLetter(s[p + 7], 'á')) then
      LiteralFromLetters(s, p, "registr", 0);
      assert SameLetter(s[p], 'r');
      Some(p + 8)
    else if LiteralAt(s, p, "marca") then
      LiteralFromLetters(s, p, "marca", 0);
      assert SameLetter(s[p + 2], 'r');
      Some(p + 5)
    else None
  }

  /** `(?P<event>entrada|salida)` at `i`: the position after the event. */
  function EventAt(s: string, i: nat): (r: Option<nat>)
    ensures r.Some? ==> i < r.value <= |s|
  {
    if LiteralAt(s, i, "entrada") then Some(i + 7)
    else if LiteralAt(s, i, "salida") then Some(i + 6)
    else None
  }

  /** The event found lower-cases to `entrada` or `salida`. */
  lemma EventAtLowers(s: string, i: nat)
    ensures EventAt(s, i).Some? ==>
      var e := s[i..EventAt(s, i).value]; Lower(e) == "entrada" || Lower(e) == "salida"
  {
    if LiteralAt(s, i, "entrada") {
      LiteralAtLowers(s, i, "entrada");
    } else if LiteralAt(s, i, "salida") {
      LiteralAtLowers(s, i, "salida");
    }
  }

  /** `\s+(?P<event>entrada|salida)` from `i`: where the event lies. */
  function EventFrom(s: string, i: nat): (r: Option<Span>)
    ensures r.Some? ==> EventShape(s, i, r.value)
  {
    if i > |s| then None
    else
      var e0 := SpanEnd(s, i, IsPySpace);
      if e0 == i then None
      else
        match EventAt(s, e0)
        case None => None
        case Some(e) => Some(Span(e0, e))
  }

  /** Whitespace from `i` to the event, and the event at `ev`. */
  predicate EventShape(s: string, i: nat, ev: Span) {
    Spaces(s, i, ev.start) && EventAt(s, ev.start) == Some(ev.end)
  }

  /** The event after whitespace is found by `EventFrom`. */
  lemma EventFromUnique(s: string, i: nat, ev: Span)
    requires EventShape(s, i, ev)
    ensures EventFrom(s, i) == Some(ev)
  {
    assert !IsPySpace(s[ev.start]) by {
      if LiteralAt(s, ev.start, "entrada") {
        LiteralFromLetters(s, ev.start, "entrada", 0);
      } else {
        LiteralFromLetters(s, ev.start, "salida", 0);
      }
    }
    SpanEndIsRunEnd(s, i, ev.start, IsPySpace);
  }

  /** The shift pattern tried at `p`. */
  function ShiftAt(s: string, p: nat): (r: Option<ShiftMatch>)
    ensures r.Some? ==> NonEmptyRun(r.value.employee, IsWordChar)
    ensures r.Some? ==> HasLetter(s, 'r')
  {
    var i := ShiftVerbAt(s, p);
    if i.None? then None
    else
      var ev := EventFrom(s, i.value);
      if ev.None? then None
      else
        var emp := EmployeeAfter(s, ev.value.end);
        if emp.None? then None
        else
          RunSlice(s, emp.value.start, emp.value.end, IsWordChar);
          Some(ShiftMatch(s[ev.value.start..ev.value.end], s[emp.value.start..emp.value.end]))
  }

  /** `\s+de\s+(?P<employee>\w+)` from `i`, the rest of the shift pattern once the event is
      found: where the employee lies. */
  function EmployeeAfter(s: string, i: nat): (r: Option<Span>)
    ensures r.Some? ==> Run(s, r.value.start, r.value.end, IsWordChar)
  {
    var c := SpacedLiteral(s, i, "de");
    if c.None? then None else SpacedRun(s, c.value + 2, IsWordChar)
  }

  /** The shift pattern matches at `p` with the event at `ev` and the employee at `emp`:
      the verb, whitespace and the event, whitespace and `de`, and whitespace and a run of
      word characters that is not followed by another word character. */
  predicate ShiftShape(s: string, p: nat, ev: Span, emp: Span) {
    && ShiftVerbAt(s, p).Some? && EventShape(s, ShiftVerbAt(s, p).value, ev)
    && SpacedLiteral(s, ev.end, "de").Some?
    && RunShape(s, SpacedLiteral(s, ev.end, "de").value + 2, emp.start, emp.end, IsWordChar)
  }

  /** Wherever the shift pattern matches, its event lower-cases to `entrada` or `salida`. */
  lemma ShiftEventIsLower(s: string)
    ensures forall p :: ShiftAt(s, p).Some? ==>
      Lower(ShiftAt(s, p).value.event) == "entrada" || Lower(ShiftAt(s, p).value.event) == "salida"
  {
    forall p | ShiftAt(s, p).Some?
      ensures Lower(ShiftAt(s, p).value.event) == "entrada" || Lower(ShiftAt(s, p).value.event) == "salida"
    {
      EventAtLowers(s, EventFrom(s, ShiftVerbAt(s, p).value).value.start);
    }
  }

  /** `ShiftAt` is the verb, followed by what `EventFrom` and then `EmployeeAfter` find. */
  lemma ShiftAtParts(s: string, p: nat)
    ensures ShiftAt(s, p).Some? <==>
      && ShiftVerbAt(s, p).Some? && EventFrom(s, ShiftVerbAt(s, p).value).Some?
      && EmployeeAfter(s, EventFrom(s, ShiftVerbAt(s, p).value).value.end).Some?
    ensures ShiftAt(s, p).Some? ==>
      var ev := EventFrom(s, ShiftVerbAt(s, p).value).value;
      var emp := EmployeeAfter(s, ev.end).value;
      ShiftAt(s, p).value == ShiftMatch(s[ev.start..ev.end], s[emp.start..emp.end])
  {
  }

  /** The employee `EmployeeAfter` finds follows whitespace and `de`, and is a whole run of
      word characters after whitespace. */
  lemma EmployeeAfterShape(s: string, i: nat)
    ensures EmployeeAfter(s, i).Some? ==>
      && SpacedLiteral(s, i, "de").Some?
      && RunShape(s, SpacedLiteral(s, i, "de").value + 2, EmployeeAfter(s, i).value.start, EmployeeAfter(s, i).value.end, IsWordChar)
  {
  }

  /** What `ShiftAt` finds is the event and the employee of a match of the shift pattern. */
  lemma ShiftAtShape(s: string, p: nat)
    ensures ShiftAt(s, p).Some? ==> exists ev, emp ::
      ShiftShape(s, p, ev, emp) && ShiftAt(s, p).value == ShiftMatch(s[ev.start..ev.end], s[emp.start..emp.end])
  {
    if ShiftAt(s, p).Some? {
      ShiftAtParts(s, p);
      var ev := EventFrom(s, ShiftVerbAt(s, p).value).value;
      var emp := EmployeeAfter(s, ev.end).value;
      EmployeeAfterShape(s, ev.end);
      assert ShiftShape(s, p, ev, emp);
    }
  }

  /** `ShiftAt` put together from the positions its pieces find. */
  lemma ShiftAtChain(s: string, p: nat, i: nat, ev: Span, emp: Span)
    requires ShiftVerbAt(s, p) == Some(i) && EventFrom(s, i) == Some(ev) && EmployeeAfter(s, ev.end) == Some(emp)
    ensures ShiftAt(s, p) == Some(ShiftMatch(s[ev.start..ev.end], s[emp.start..emp.end]))
  {
  }

  /** `EmployeeAfter` put together from the positions its two parts find. */
  lemma EmployeeChain(s: string, i: nat, c: nat, emp: Span)
    requires SpacedLiteral(s, i, "de") == Some(c) && SpacedRun(s, c + 2, IsWordChar) == Some(emp)
    ensures EmployeeAfter(s, i) == Some(emp)
  {
  }

  /** Whenever the shift pattern can match at `p`, `ShiftAt` finds that match. */
  lemma ShiftShapeFound(s: string, p: nat, ev: Span, emp: Span)
    requires ShiftShape(s, p, ev, emp)
    ensures ShiftAt(s, p) == Some(ShiftMatch(s[ev.start..ev.end], s[emp.start..emp.end]))
  {
    EventFromUnique(s, ShiftVerbAt(s, p).value, ev);
    EmployeeFound(s, ev.end, emp);
    ShiftAtChain(s, p, ShiftVerbAt(s, p).value, ev, emp);
  }

  /** Wherever `\s+de\s+(?P<employee>\w+)` can match from `i`, `EmployeeAfter` finds that match. */
  lemma EmployeeFound(s: string, i: nat, emp: Span)
    requires SpacedLiteral(s, i, "de").Some?
    requires RunShape(s, SpacedLiteral(s, i, "de").value + 2, emp.start, emp.end, IsWordChar)
    ensures EmployeeAfter(s, i) == Some(emp)
  {
    ClassRelations(s[emp.start]);
    var c := SpacedLiteral(s, i, "de").value;
    SpacedRunUnique(s, c + 2, emp.start, emp.end, IsWordChar);
    EmployeeChain(s, i, c, emp);
  }

  /** A lower-case ASCII letter matches only itself and its capital. */
  lemma HasLetterIsEitherCase(s: string, l: char)
    requires 'a' <= l <= 'z'
    ensures HasLetter(s, l) ==> l in s || (l as int - 32) as char in s
  {
    if HasLetter(s, l) {
      var k :| 0 <= k < |s| && SameLetter(s[k], l);
      assert s[k] == l || s[k] == (l as int - 32) as char;
    }
  }

  lemma HasDigitIsSomeDigit(s: string)
    ensures HasDigit(s) ==> exists d :: '0' <= d <= '9' && d in s
  {
    if HasDigit(s) {
      var k :| 0 <= k < |s| && IsDigit(s[k]);
      assert s[k] in s;
    }
  }

  /** `SALE_PATTERN.search(s)`. */
  function FindSale(s: string): (r: Option<SaleMatch>)
    ensures r.Some? ==> IsNumeral(r.value.amount) && NonEmptyRun(r.value.sku, IsWordChar)
    ensures r.Some? ==> HasDigit(s)
  {
    Search(s, SaleAt)
  }

  /** `RESTOCK_PATTERN.search(s)`. */
  function FindRestock(s: string): (r: Option<RestockMatch>)
    ensures r.Some? ==> IsNumeral(r.value.amount) && NonEmptyRun(r.value.sku, IsWordChar)
    ensures r.Some? && r.value.name.Some? ==> NonEmptyRun(r.value.name.value, IsWordOrSpace)
    ensures r.Some? ==> HasDigit(s)
  {
    Search(s, RestockAt)
  }

  /** `REMINDER_PATTERN.search(s)`. */
  function FindReminder(s: string): (r: Option<ReminderMatch>)
    ensures r.Some? ==> NonEmptyRun(r.value.customer, IsWordOrSpace) && NonEmptyRun(r.value.description, IsNotNewline)
    ensures r.Some? ==> HasLetter(s, 'r')
  {
    Search(s, ReminderAt)
  }

  /** `SHIFT_PATTERN.search(s)`. */
  function FindShift(s: string): (r: Option<ShiftMatch>)
    ensures r.Some? ==> (Lower(r.value.event) == "entrada" || Lower(r.value.event) == "salida")
    ensures r.Some? ==> NonEmptyRun(r.value.employee, IsWordChar)
    ensures r.Some? ==> HasLetter(s, 'r')
  {
    ShiftEventIsLower(s);
    Search(s, ShiftAt)
  }

  /** `search` returns the match at the leftmost position where the sale pattern matches. */
  lemma FindSaleIsLeftmost(s: string)
    ensures FindSale(s).None? <==> forall p :: 0 <= p <= |s| ==> SaleAt(s, p).None?
    ensures FindSale(s).Some? ==>
      exists p :: 0 <= p <= |s| && SaleAt(s, p) == FindSale(s) && forall q :: 0 <= q < p ==> SaleAt(s, q).None?
  {
    var at := SaleAt;
    assert forall p: nat :: at(s, p) == SaleAt(s, p);
  }

  /** `search` returns the match at the leftmost position where the restock pattern
      matches. */
  lemma FindRestockIsLeftmost(s: string)
    ensures FindRestock(s).None? <==> forall p :: 0 <= p <= |s| ==> RestockAt(s, p).None?
    ensures FindRestock(s).Some? ==>
      exists p :: 0 <= p <= |s| && RestockAt(s, p) == FindRestock(s) && forall q :: 0 <= q < p ==> RestockAt(s, q).None?
  {
    var at := RestockAt;
    assert forall p: nat :: at(s, p) == RestockAt(s, p);
  }

  /** `search` returns the match at the leftmost position where the reminder pattern
      matches. */
  lemma FindReminderIsLeftmost(s: string)
    ensures FindReminder(s).None? <==> forall p :: 0 <= p <= |s| ==> ReminderAt(s, p).None?
    ensures FindReminder(s).Some? ==>
      exists p :: 0 <= p <= |s| && ReminderAt(s, p) == FindReminder(s) && forall q :: 0 <= q < p ==> ReminderAt(s, q).None?
  {
    var at := ReminderAt;
    assert forall p: nat :: at(s, p) == ReminderAt(s, p);
  }

  /** `search` returns the match at the leftmost position where the shift pattern matches. */
  lemma FindShiftIsLeftmost(s: string)
    ensures FindShift(s).None? <==> forall p :: 0 <= p <= |s| ==> ShiftAt(s, p).None?
    ensures FindShift(s).Some? ==>
      exists p :: 0 <= p <= |s| && ShiftAt(s, p) == FindShift(s) && forall q :: 0 <= q < p ==> ShiftAt(s, q).None?
  {
    var at := ShiftAt;
    assert forall p: nat :: at(s, p) == ShiftAt(s, p);
  }
}
