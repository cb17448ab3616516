/**
 * The form request of a 2D play: the validation rules of `totalAmount` and
 * of the `amounts` list, the custom messages, and the after-hook that adds
 * one error under `totalAmount` when the individual amounts do not add up
 * to it.  The validator's error bag is a map from attribute to its
 * messages, in the order they were added.
 */
module TwoDPlayRequest {
  import opened Text

  // ---------------------------------------------------------------------
  // Inputs, as they reach the validator
  // ---------------------------------------------------------------------

  /** `totalAmount`: absent or null, a numeric value (with the text PHP prints for it), other text, or a JSON boolean. */
  datatype TotalInput = TotalAbsent | TotalNumber(text: string, value: real) | TotalText(s: string) | TotalBool(b: bool)

  /** `amounts.*.num`: absent or null, a string, a JSON integer, or a JSON boolean. */
  datatype NumInput = NumAbsent | NumString(s: string) | NumNumber(n: int) | NumBool(b: bool)

  /** `amounts.*.amount`: absent or null, a number, or a JSON boolean. */
  datatype AmountInput = AmountAbsent | AmountNumber(value: real) | AmountBool(b: bool)

  /** One entry of `amounts`. */
  datatype Item = Item(num: NumInput, amount: AmountInput)

  /** `amounts`: absent or null, a list, a scalar (with the text PHP reads it as), or a JSON boolean. */
  datatype AmountsInput = AmountsAbsent | AmountsList(items: seq<Item>) | AmountsScalar(s: string) | AmountsBool(b: bool)

  // ---------------------------------------------------------------------
  // Messages
  // ---------------------------------------------------------------------

  /** A validation message: a fixed text of the messages table, or the after-hook's mismatch text. */
  datatype ErrorMessage = Fixed(text: string) | SumMismatch(total: string, calculated: real)

  const TotalRequired := Fixed("Total amount is required.")
  const TotalNumeric := Fixed("Total amount must be a number.")
  const TotalMin := Fixed("Total amount must be at least 1.")
  const AmountsRequired := Fixed("Bet amounts are required.")
  const AmountsArray := Fixed("Bet amounts must be an array.")
  const AmountsMin := Fixed("At least one bet amount is required.")
  const NumRequired := Fixed("Bet number is required.")
  const NumNotString := Fixed("Bet number must be a string.")
  const NumRegex := Fixed("Bet number must be a valid 2-digit number (00-99).")
  const AmountRequired := Fixed("Bet amount is required.")
  const AmountInteger := Fixed("Bet amount must be a whole number.")
  const AmountMin := Fixed("Bet amount must be at least 1.")

  /** `authorize`: every request is authorised here (middleware does the rest). */
  function Authorize(): (r: bool)
    ensures r
  {
    true
  }

  // ---------------------------------------------------------------------
  // The rules, one attribute at a time
  // ---------------------------------------------------------------------

  /** The characters PHP's `trim` removes. */
  predicate IsTrimmed(c: char) {
    c == ' ' || c == '\t' || c == '\n' || c == '\r' || c as int == 0 || c as int == 11
  }

  /** Text the `required` rule treats as missing: nothing but whitespace. */
  predicate Blank(s: string) {
    forall i :: 0 <= i < |s| ==> IsTrimmed(s[i])
  }

  predicate OneOrTwoDigits(s: string) {
    1 <= |s| <= 2 && forall i :: 0 <= i < |s| ==> IsDigitChar(s[i])
  }

  /** `/^[0-9]{1,2}$/` under PCRE, where `$` also matches just before a final newline. */
  predicate TwoDigitPattern(s: string) {
    OneOrTwoDigits(s) || (|s| >= 2 && s[|s| - 1] == '\n' && OneOrTwoDigits(s[..|s| - 1]))
  }

  /** A whole number, as the `integer` rule accepts it. */
  predicate Whole(v: real) {
    v == v.Floor as real
  }

  /**
   * `required|numeric|min:1`: a failed `required` stops the attribute; a
   * value that is not numeric is measured by `min` as the length of its
   * text, so non-blank text and `true` ("1") pass it and `false` ("") fails.
   */
  function TotalErrors(t: TotalInput): (r: seq<ErrorMessage>)
    ensures |r| <= 2
    ensures r == [] <==> t.TotalNumber? && t.value >= 1.0
    ensures |r| == 2 <==> t == TotalBool(false)
    ensures t.TotalBool? ==> r[0] == TotalNumeric && (TotalMin in r <==> !t.b)
  {
    match t
    case TotalAbsent => [TotalRequired]
    case TotalText(s) => if Blank(s) then [TotalRequired] else [TotalNumeric]
    case TotalNumber(_, v) => if v < 1.0 then [TotalMin] else []
    case TotalBool(b) => [TotalNumeric] + (if b then [] else [TotalMin])
  }

  /**
   * `required|array|min:1`: an empty list counts as missing; anything else
   * that is not a list fails `array`, and `min` then measures its text, which
   * only `false` ("") fails.
   */
  function AmountsErrors(a: AmountsInput): (r: seq<ErrorMessage>)
    ensures |r| <= 2
    ensures r == [] <==> a.AmountsList? && a.items != []
    ensures |r| == 2 <==> a == AmountsBool(false)
    ensures AmountsMin in r <==> a == AmountsBool(false)
    ensures a.AmountsBool? ==> r[0] == AmountsArray
  {
    match a
    case AmountsAbsent => [AmountsRequired]
    case AmountsList(items) => if items == [] then [AmountsRequired] else []
    case AmountsScalar(s) => if Blank(s) then [AmountsRequired] else [AmountsArray]
    case AmountsBool(b) => [AmountsArray] + (if b then [] else [AmountsMin])
  }

  /**
   * `required|string|regex:/^[0-9]{1,2}$/`: a JSON integer fails `string`
   * but is matched as its decimal text; a boolean fails both, since `regex`
   * refuses anything neither string nor numeric.
   */
  function NumErrors(n: NumInput): (r: seq<ErrorMessage>)
    ensures r == [] <==> n.NumString? && TwoDigitPattern(n.s)
    ensures n.NumBool? ==> r == [NumNotString, NumRegex]
  {
    match n
    case NumAbsent => [NumRequired]
    case NumString(s) =>
      PatternNotBlank(s);
      if Blank(s) then [NumRequired] else if TwoDigitPattern(s) then [] else [NumRegex]
    case NumNumber(k) => [NumNotString] + (if TwoDigitPattern(IntText(k)) then [] else [NumRegex])
    case NumBool(_) => [NumNotString, NumRegex]
  }

  /**
   * `required|integer|min:1`: both `integer` and `min` are checked, so 0.5
   * fails twice.  `filter_var` reads `true` as 1 and `false` as "", and `min`
   * measures a boolean by the length of that text, so `true` passes both
   * rules and `false` fails both.
   */
  function AmountErrors(a: AmountInput): (r: seq<ErrorMessage>)
    ensures r == [] <==> a == AmountBool(true) || (a.AmountNumber? && Whole(a.value) && a.value >= 1.0)
    ensures a == AmountBool(false) ==> r == [AmountInteger, AmountMin]
  {
    match a
    case AmountAbsent => [AmountRequired]
    case AmountNumber(v) => (if Whole(v) then [] else [AmountInteger]) + (if v < 1.0 then [AmountMin] else [])
    case AmountBool(b) => if b then [] else [AmountInteger, AmountMin]
  }

  /** Text matching the pattern starts with a digit, so `required` never rejects it. */
  lemma PatternNotBlank(s: string)
    ensures TwoDigitPattern(s) ==> !Blank(s)
  {
    if TwoDigitPattern(s) {
      assert IsDigitChar(s[0]);
    }
  }

  /** A JSON integer passes the pattern exactly when it lies in 0 .. 99, but always fails `string`. */
  lemma NumNumberErrors(k: int)
    ensures NumErrors(NumNumber(k)) == (if 0 <= k <= 99 then [NumNotString] else [NumNotString, NumRegex])
  {
    if k < 0 {
      assert IntText(k)[0] == '-';
      assert !TwoDigitPattern(IntText(k));
    } else if k >= 100 {
      NatTextLong(k / 10);
      assert !TwoDigitPattern(IntText(k));
    } else if k >= 10 {
      assert |IntText(k)| == 2;
    }
  }

  lemma {:induction false} NatTextLong(n: nat)
    requires n >= 10
    ensures |NatText(n)| >= 2 && IsDigitChar(NatText(n)[|NatText(n)| - 1])
  {
    if n / 10 >= 10 {
      NatTextLong(n / 10);
    }
  }

  /** The pattern accepts one and two digits, leading zero included. */
  lemma PatternAccepts()
    ensures NumErrors(NumString("7")) == [] && NumErrors(NumString("07")) == [] && NumErrors(NumString("42")) == []
  {
  }

  /** "123" is too long and "4a" holds a letter. */
  lemma PatternRejects()
    ensures NumErrors(NumString("123")) == [NumRegex] && NumErrors(NumString("4a")) == [NumRegex]
  {
    assert "4a"[0] == '4' && !IsTrimmed('4');
    assert "123"[0] == '1' && !IsTrimmed('1');
    assert "4a"[1] == 'a';
    assert !TwoDigitPattern("4a");
  }

  /** Because `$` also matches before a final newline, "42" followed by a newline passes. */
  lemma PatternTrailingNewline()
    ensures NumErrors(NumString("42\n")) == []
  {
    assert "42\n"[..2] == "42";
  }

  // ---------------------------------------------------------------------
  // The error bag
  // ---------------------------------------------------------------------

  /** An attribute of the error bag: `totalAmount`, `amounts`, or `amounts.<i>.num` / `amounts.<i>.amount`. */
  datatype Attribute = TotalKey | AmountsKey | ItemKey(index: nat, isNum: bool)

  /** The attribute's name, as the bag prints it. */
  function AttributeName(a: Attribute): string {
    match a
    case TotalKey => "totalAmount"
    case AmountsKey => "amounts"
    case ItemKey(i, isNum) => "amounts." + NatText(i) + "." + (if isNum then "num" else "amount")
  }

  /** The messages by attribute. */
  type Bag = map<Attribute, seq<ErrorMessage>>

  /** The messages recorded under `key` so far. */
  function Lookup(m: Bag, key: Attribute): seq<ErrorMessage> {
    if key in m then m[key] else []
  }

  /** `MessageBag::add` for several messages: appended under `key`, nothing recorded when there are none. */
  function Put(m: Bag, key: Attribute, errs: seq<ErrorMessage>): (r: Bag)
    ensures Lookup(r, key) == Lookup(m, key) + errs
    ensures forall k :: k != key ==> Lookup(r, k) == Lookup(m, k)
    ensures (r == map[]) <==> m == map[] && errs == []
  {
    if errs == [] then
      assert Lookup(m, key) + errs == Lookup(m, key);
      m
    else
      var r := m[key := Lookup(m, key) + errs];
      assert key in r;
      r
  }

  /** The messages of one field of one entry. */
  function FieldErrors(item: Item, isNum: bool): seq<ErrorMessage> {
    if isNum then NumErrors(item.num) else AmountErrors(item.amount)
  }

  /** The wildcard rule `amounts.*.<field>`, expanded over entries `i` onwards. */
  function PutItems(m: Bag, items: seq<Item>, isNum: bool, i: nat): Bag
    decreases |items| - i
  {
    if i >= |items| then m
    else PutItems(Put(m, ItemKey(i, isNum), FieldErrors(items[i], isNum)), items, isNum, i + 1)
  }

  /** Every entry from `i` onwards passes the rules of one field. */
  predicate AllPass(items: seq<Item>, isNum: bool, i: nat) {
    forall j :: i <= j < |items| ==> FieldErrors(items[j], isNum) == []
  }

  /** The wildcard expansion records nothing exactly when every remaining entry passes. */
  lemma {:induction false} PutItemsEmpty(m: Bag, items: seq<Item>, isNum: bool, i: nat)
    ensures PutItems(m, items, isNum, i) == map[] <==> m == map[] && AllPass(items, isNum, i)
    decreases |items| - i
  {
    if i < |items| {
      var e := FieldErrors(items[i], isNum);
      var next := Put(m, ItemKey(i, isNum), e);
      PutItemsEmpty(next, items, isNum, i + 1);
      assert PutItems(m, items, isNum, i) == PutItems(next, items, isNum, i + 1);
      assert AllPass(items, isNum, i) <==> e == [] && AllPass(items, isNum, i + 1);
    }
  }

  /** The rules phase: `totalAmount`, `amounts`, then every entry's `num`, then every entry's `amount`. */
  function RulesErrors(total: TotalInput, amounts: AmountsInput): Bag {
    var m := Put(Put(map[], TotalKey, TotalErrors(total)), AmountsKey, AmountsErrors(amounts));
    var items := if amounts.AmountsList? then amounts.items else [];
    PutItems(PutItems(m, items, true, 0), items, false, 0)
  }

  /** The rules pass exactly when the total is at least 1, the list is non-empty and every entry passes. */
  lemma RulesPass(total: TotalInput, amounts: AmountsInput)
    ensures RulesErrors(total, amounts) == map[]
            <==> total.TotalNumber? && total.value >= 1.0 && amounts.AmountsList? && amounts.items != []
                 && AllPass(amounts.items, true, 0) && AllPass(amounts.items, false, 0)
  {
    var m := Put(Put(map[], TotalKey, TotalErrors(total)), AmountsKey, AmountsErrors(amounts));
    var items := if amounts.AmountsList? then amounts.items else [];
    PutItemsEmpty(m, items, true, 0);
    PutItemsEmpty(PutItems(m, items, true, 0), items, false, 0);
  }

  // ---------------------------------------------------------------------
  // The after-hook
  // ---------------------------------------------------------------------

  /** What one amount adds to the sum: a missing amount 0, `true` 1 and `false` 0, as PHP's `+` reads them. */
  function AmountAdded(a: AmountInput): real {
    match a
    case AmountAbsent => 0.0
    case AmountNumber(v) => v
    case AmountBool(b) => if b then 1.0 else 0.0
  }

  /** `collect($amounts)->sum('amount')`. */
  function SumAmounts(items: seq<Item>): real {
    if items == [] then 0.0
    else SumAmounts(items[..|items| - 1]) + AmountAdded(items[|items| - 1].amount)
  }

  /**
   * `$calculatedTotal != $totalAmount` under PHP 8's loose comparison: null
   * equals only a zero sum, non-numeric text never equals a number, a
   * numeric value is compared by value, and a boolean is compared with the
   * sum read as a boolean (non-zero is `true`).
   */
  predicate Mismatch(total: TotalInput, calculated: real) {
    match total
    case TotalAbsent => calculated != 0.0
    case TotalText(_) => true
    case TotalNumber(_, v) => calculated != v
    case TotalBool(b) => (calculated != 0.0) != b
  }

  /** What `{$totalAmount}` prints: nothing for null or `false`, "1" for `true`, else the input's text. */
  function TotalShown(total: TotalInput): string {
    match total
    case TotalAbsent => ""
    case TotalText(s) => s
    case TotalNumber(text, _) => text
    case TotalBool(b) => if b then "1" else ""
  }

  /**
   * The after-hook on an error bag: runs only when `amounts` is a list, and
   * then adds exactly one message under `totalAmount` when the sum differs
   * from the total, leaving every other attribute's messages alone.
   */
  function AfterHook(m: Bag, total: TotalInput, amounts: AmountsInput): (r: Bag)
    ensures !(amounts.AmountsList? && Mismatch(total, SumAmounts(amounts.items))) ==> r == m
    ensures amounts.AmountsList? && Mismatch(total, SumAmounts(amounts.items)) ==>
              Lookup(r, TotalKey) == Lookup(m, TotalKey) + [SumMismatch(TotalShown(total), SumAmounts(amounts.items))]
              && r != map[]
    ensures forall k :: k != TotalKey ==> Lookup(r, k) == Lookup(m, k)
  {
    if amounts.AmountsList? && Mismatch(total, SumAmounts(amounts.items)) then
      Put(m, TotalKey, [SumMismatch(TotalShown(total), SumAmounts(amounts.items))])
    else m
  }

  /** The validator's verdict: the rules' messages, then the after-hook's. */
  function Validate(total: TotalInput, amounts: AmountsInput): Bag {
    AfterHook(RulesErrors(total, amounts), total, amounts)
  }

  /**
   * A play request is accepted exactly when the total is a number of at
   * least 1, the list is non-empty, every number is a one- or two-digit
   * string, every amount a whole number of at least 1 or `true`, and the
   * amounts add up to the total.
   */
  lemma ValidateAccepts(total: TotalInput, amounts: AmountsInput)
    ensures Validate(total, amounts) == map[]
            <==> total.TotalNumber? && total.value >= 1.0 && amounts.AmountsList? && amounts.items != []
                 && (forall j :: 0 <= j < |amounts.items| ==>
                       amounts.items[j].num.NumString? && TwoDigitPattern(amounts.items[j].num.s))
                 && (forall j :: 0 <= j < |amounts.items| ==>
                       amounts.items[j].amount == AmountBool(true)
                       || (amounts.items[j].amount.AmountNumber? && Whole(amounts.items[j].amount.value)
                           && amounts.items[j].amount.value >= 1.0))
                 && SumAmounts(amounts.items) == total.value
  {
    RulesPass(total, amounts);
    if amounts.AmountsList? {
      var items := amounts.items;
      assert AllPass(items, true, 0) <==> forall j :: 0 <= j < |items| ==> NumErrors(items[j].num) == [];
      assert AllPass(items, false, 0) <==> forall j :: 0 <= j < |items| ==> AmountErrors(items[j].amount) == [];
    }
  }

  /** Entries that all pass their rules but add up to something else: the only message is the mismatch, under `totalAmount`. */
  lemma OnlyMismatch(text: string, v: real, items: seq<Item>)
    requires v >= 1.0 && items != []
    requires AllPass(items, true, 0) && AllPass(items, false, 0)
    requires SumAmounts(items) != v
    ensures Validate(TotalNumber(text, v), AmountsList(items)) == map[TotalKey := [SumMismatch(text, SumAmounts(items))]]
  {
    var total, amounts := TotalNumber(text, v), AmountsList(items);
    RulesPass(total, amounts);
    var msg := SumMismatch(text, SumAmounts(items));
    assert RulesErrors(total, amounts) == map[];
    assert Validate(total, amounts) == Put(map[], TotalKey, [msg]);
    assert Lookup(map[], TotalKey) + [msg] == [msg];
  }

  /** A scalar `amounts` fails the `array` rule and never reaches the sum check. */
  lemma ScalarAmountsSkipSum(total: TotalInput, s: string)
    requires !Blank(s)
    ensures Lookup(Validate(total, AmountsScalar(s)), AmountsKey) == [AmountsArray]
    ensures Lookup(Validate(total, AmountsScalar(s)), TotalKey) == TotalErrors(total)
  {
    var m := Put(Put(map[], TotalKey, TotalErrors(total)), AmountsKey, AmountsErrors(AmountsScalar(s)));
    assert RulesErrors(total, AmountsScalar(s)) == m;
  }

  /** A boolean `amounts` fails `array`, `false` also fails `min`, and the sum check is skipped. */
  lemma BooleanAmountsMessages(total: TotalInput, b: bool)
    ensures Lookup(Validate(total, AmountsBool(b)), AmountsKey)
            == (if b then [AmountsArray] else [AmountsArray, AmountsMin])
    ensures Lookup(Validate(total, AmountsBool(b)), TotalKey) == TotalErrors(total)
  {
    var m := Put(Put(map[], TotalKey, TotalErrors(total)), AmountsKey, AmountsErrors(AmountsBool(b)));
    assert RulesErrors(total, AmountsBool(b)) == m;
  }

  /**
   * A JSON `false` total draws both the `numeric` and the `min` message, and
   * then the mismatch message exactly when a list's sum is not zero.
   */
  lemma FalseTotalMessages(amounts: AmountsInput)
    ensures Lookup(Validate(TotalBool(false), amounts), TotalKey)
            == [TotalNumeric, TotalMin]
               + (if amounts.AmountsList? && SumAmounts(amounts.items) != 0.0
                  then [SumMismatch("", SumAmounts(amounts.items))] else [])
  {
    var rules := RulesErrors(TotalBool(false), amounts);
    var m := Put(Put(map[], TotalKey, TotalErrors(TotalBool(false))), AmountsKey, AmountsErrors(amounts));
    var items := if amounts.AmountsList? then amounts.items else [];
    PutItemsKeepsTotal(m, items, true, 0);
    PutItemsKeepsTotal(PutItems(m, items, true, 0), items, false, 0);
    assert Lookup(rules, TotalKey) == [TotalNumeric, TotalMin];
  }

  /** The wildcard expansion records nothing under `totalAmount`. */
  lemma {:induction false} PutItemsKeepsTotal(m: Bag, items: seq<Item>, isNum: bool, i: nat)
    ensures Lookup(PutItems(m, items, isNum, i), TotalKey) == Lookup(m, TotalKey)
    decreases |items| - i
  {
    if i < |items| {
      PutItemsKeepsTotal(Put(m, ItemKey(i, isNum), FieldErrors(items[i], isNum)), items, isNum, i + 1);
    }
  }

  /** A JSON `true` amount passes `integer` and `min:1` and counts as 1, so it is accepted as a stake of 1. */
  lemma TrueAmountAccepted()
    ensures Validate(TotalNumber("1", 1.0), AmountsList([Item(NumString("5"), AmountBool(true))])) == map[]
  {
    var items := [Item(NumString("5"), AmountBool(true))];
    assert SumAmounts(items) == SumAmounts(items[..0]) + 1.0;
    ValidateAccepts(TotalNumber("1", 1.0), AmountsList(items));
  }

  // ---------------------------------------------------------------------
  // The validator run
  // ---------------------------------------------------------------------

  /** The validator's error bag. */
  class ErrorBag {
    var messages: Bag

    constructor (initial: Bag)
      ensures messages == initial
    {
      messages := initial;
    }

    /** `$validator->errors()->add($key, $message)`. */
    method Add(key: Attribute, message: ErrorMessage)
      modifies this
      ensures messages == Put(old(messages), key, [message])
    {
      messages := Put(messages, key, [message]);
    }
  }

  /** The closure registered with `$validator->after`. */
  method RunAfterHook(bag: ErrorBag, total: TotalInput, amounts: AmountsInput)
    modifies bag
    ensures bag.messages == AfterHook(old(bag.messages), total, amounts)
  {
    if amounts.AmountsList? {
      var calculatedTotal := SumAmounts(amounts.items);
      if Mismatch(total, calculatedTotal) {
        bag.Add(TotalKey, SumMismatch(TotalShown(total), calculatedTotal));
      }
    }
  }

  /** Validation of one request: the rules fill the bag, then the after-hook runs on it. */
  method ValidatePlay(total: TotalInput, amounts: AmountsInput) returns (errors: Bag)
    ensures errors == Validate(total, amounts)
  {
    var bag := new ErrorBag(RulesErrors(total, amounts));
    RunAfterHook(bag, total, amounts);
    errors := bag.messages;
  }
}
