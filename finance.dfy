/** The finance dashboard of src/_root/main/Dashboard.tsx: the month's
    transactions, their totals per type and per category, the largest
    spending category, and the form that posts a purchase, split into
    monthly installments when it is bought on credit. Amounts are exact
    reals. */
module Finance {
  import opened Wrappers
  import opened JsText
  import opened JsDate
  import Lists

  /** A transaction as the page keeps it (`dateDisplay`, a locale rendering,
      is not modelled). `kind` is the lower-cased server type. */
  datatype Transaction = Transaction(id: string, description: string, amount: real,
                                     kind: string, category: string, timestamp: string)

  /** A row of the `/private/transactions` reply; `amount` is already
      `Number(t.amount)`. */
  datatype RawTransaction = RawTransaction(id: string, description: string, amount: real,
                                           kind: string, category: string, date: string)

  /** The body of one `/private/transactions` post. */
  datatype Payload = Payload(description: string, amount: real, kind: string, category: string, date: string)

  /** The load mapping: the server's type is lower-cased. */
  function FromServer(raw: RawTransaction): (t: Transaction)
    ensures t.kind == ToLower(raw.kind) && t.amount == raw.amount && t.id == raw.id
    ensures t.description == raw.description && t.category == raw.category && t.timestamp == raw.date
  {
    Transaction(raw.id, raw.description, raw.amount, ToLower(raw.kind), raw.category, raw.date)
  }

  function FromServerAll(rows: seq<RawTransaction>): (r: seq<Transaction>)
    ensures |r| == |rows| && forall i :: 0 <= i < |rows| ==> r[i] == FromServer(rows[i])
  {
    if rows == [] then [] else [FromServer(rows[0])] + FromServerAll(rows[1..])
  }

  /** A type written by the form (`type.toUpperCase()`) is read back by the
      load mapping as the type the form had. */
  lemma {:induction false} PostedKindReadsBack(kind: string)
    requires forall i :: 0 <= i < |kind| ==> 'a' <= kind[i] <= 'z'
    ensures ToLower(ToUpper(kind)) == kind
  {
    forall i | 0 <= i < |kind|
      ensures IsLatinSmall(kind[i])
    {
    }
    LowerUndoesUpper(kind);
  }

  // ---- the month's transactions ----

  /** `tDate.getMonth() === currentDate.getMonth() && tDate.getFullYear() ===
      currentDate.getFullYear()`; an invalid date compares NaN and fails. */
  predicate InMonth(date: Date, month: int, year: int) {
    date.At? && date.dt.month == month && date.dt.year == year
  }

  /** `filteredTransactions`, where `parse` stands for `new Date(timestamp)`. */
  function MonthTransactions(ts: seq<Transaction>, parse: string -> Date, month: int, year: int)
    : (r: seq<Transaction>)
    ensures forall t :: t in r <==> t in ts && InMonth(parse(t.timestamp), month, year)
  {
    Lists.Filter(ts, (t: Transaction) => InMonth(parse(t.timestamp), month, year))
  }

  // ---- totals ----

  /** `.reduce((acc, t) => acc + t.amount, 0)`, adding from the left. */
  function Sum(rows: seq<Transaction>): real {
    if rows == [] then 0.0 else Sum(rows[..|rows| - 1]) + rows[|rows| - 1].amount
  }

  function OfKind(ts: seq<Transaction>, kind: string): (r: seq<Transaction>)
    ensures forall t :: t in r <==> t in ts && t.kind == kind
  {
    Lists.Filter(ts, (t: Transaction) => t.kind == kind)
  }

  /** The total of one type. The expense filter `t.type === "expense" &&
      "credit"` is true exactly for expenses, so credit rows are not in it. */
  function Total(ts: seq<Transaction>, kind: string): real {
    Sum(OfKind(ts, kind))
  }

  /** A per-category record such as `catMap`, as its entries in insertion
      order. `Object.entries` lists keys in that order when none of them is
      an integer-like text (those come first, ascending); the form's fixed
      categories are all such non-numeric names. */
  type Entries = seq<(string, real)>

  /** `record[k] || 0`: the first entry's value, 0 when there is none. */
  function Lookup(e: Entries, k: string): real {
    if e == [] then 0.0 else if e[0].0 == k then e[0].1 else Lookup(e[1..], k)
  }

  predicate HasKey(e: Entries, k: string) {
    exists i :: 0 <= i < |e| && e[i].0 == k
  }

  predicate UniqueKeys(e: Entries) {
    forall i, j :: 0 <= i < j < |e| ==> e[i].0 != e[j].0
  }

  function ValuesSum(e: Entries): real {
    if e == [] then 0.0 else e[0].1 + ValuesSum(e[1..])
  }

  /** `record[k] = (record[k] || 0) + a`: an existing key keeps its place and
      gains `a`; a new key is appended. */
  function Add(e: Entries, k: string, a: real): (r: Entries)
    ensures HasKey(e, k) ==> |r| == |e|
    ensures !HasKey(e, k) ==> |r| == |e| + 1 && r[|e|] == (k, a)
    ensures forall i :: 0 <= i < |e| ==> r[i].0 == e[i].0
    ensures forall i :: 0 <= i < |e| && e[i].0 != k ==> r[i] == e[i]
    ensures forall x :: Lookup(r, x) == Lookup(e, x) + (if x == k then a else 0.0)
    ensures forall x :: HasKey(r, x) <==> HasKey(e, x) || x == k
  {
    if e == [] then [(k, a)]
    else if e[0].0 == k then [(k, e[0].1 + a)] + e[1..]
    else
      assert HasKey(e, k) <==> HasKey(e[1..], k) by {
        if HasKey(e, k) {
          var i :| 0 <= i < |e| && e[i].0 == k;
          assert e[1..][i - 1].0 == k;
        }
      }
      [e[0]] + Add(e[1..], k, a)
  }

  lemma {:induction false} AddKeepsUnique(e: Entries, k: string, a: real)
    requires UniqueKeys(e)
    ensures UniqueKeys(Add(e, k, a))
  {
    var r := Add(e, k, a);
    if !HasKey(e, k) {
      forall i, j | 0 <= i < j < |r|
        ensures r[i].0 != r[j].0
      {
        if j == |e| {
          assert r[i].0 == e[i].0;
        }
      }
    }
  }

  lemma {:induction false} AddSum(e: Entries, k: string, a: real)
    ensures ValuesSum(Add(e, k, a)) == ValuesSum(e) + a
  {
    if e != [] && e[0].0 != k {
      AddSum(e[1..], k, a);
      assert Add(e, k, a) == [e[0]] + Add(e[1..], k, a);
      assert ([e[0]] + Add(e[1..], k, a))[1..] == Add(e[1..], k, a);
    } else if e != [] {
      assert Add(e, k, a)[1..] == e[1..];
    }
  }

  /** The `forEach` over `rows`, starting from `acc`. */
  function Totals(rows: seq<Transaction>, acc: Entries): Entries {
    if rows == [] then acc
    else
      var last := rows[|rows| - 1];
      Add(Totals(rows[..|rows| - 1], acc), last.category, last.amount)
  }

  /** The amounts of the rows with category `c`. */
  function CategorySum(rows: seq<Transaction>, c: string): real {
    if rows == [] then 0.0
    else CategorySum(rows[..|rows| - 1], c) + (if rows[|rows| - 1].category == c then rows[|rows| - 1].amount else 0.0)
  }

  /** After the `forEach`, a category's value is what it held plus the
      amounts of its rows. */
  lemma {:induction false} TotalsLookup(rows: seq<Transaction>, acc: Entries, c: string)
    ensures Lookup(Totals(rows, acc), c) == Lookup(acc, c) + CategorySum(rows, c)
  {
    if rows != [] {
      TotalsLookup(rows[..|rows| - 1], acc, c);
    }
  }

  /** The values add up to what they held plus every row's amount. */
  lemma {:induction false} TotalsSum(rows: seq<Transaction>, acc: Entries)
    ensures ValuesSum(Totals(rows, acc)) == ValuesSum(acc) + Sum(rows)
  {
    if rows != [] {
      var init := rows[..|rows| - 1];
      TotalsSum(init, acc);
      AddSum(Totals(init, acc), rows[|rows| - 1].category, rows[|rows| - 1].amount);
    }
  }

  /** Some row has category `c`. */
  predicate HasCategory(rows: seq<Transaction>, c: string) {
    rows != [] && (rows[|rows| - 1].category == c || HasCategory(rows[..|rows| - 1], c))
  }

  lemma {:induction false} HasCategoryIff(rows: seq<Transaction>, c: string)
    ensures HasCategory(rows, c) <==> exists t :: t in rows && t.category == c
  {
    if rows != [] {
      var init, last := rows[..|rows| - 1], rows[|rows| - 1];
      HasCategoryIff(init, c);
      assert rows == init + [last];
      assert forall t :: t in rows <==> t in init || t == last;
    }
  }

  /** The keys are those held before and the categories of the rows, each once. */
  lemma {:induction false} TotalsKeys(rows: seq<Transaction>, acc: Entries, c: string)
    requires UniqueKeys(acc)
    ensures UniqueKeys(Totals(rows, acc))
    ensures HasKey(Totals(rows, acc), c) <==> HasKey(acc, c) || HasCategory(rows, c)
  {
    if rows != [] {
      var init, last := rows[..|rows| - 1], rows[|rows| - 1];
      TotalsKeys(init, acc, c);
      AddKeepsUnique(Totals(init, acc), last.category, last.amount);
    }
  }

  /** `catMap`: expenses first, then credit purchases. */
  function CatMap(ts: seq<Transaction>): Entries {
    Totals(OfKind(ts, "credit"), Totals(OfKind(ts, "expense"), []))
  }

  /** `catInc`: the income per category. */
  function CatInc(ts: seq<Transaction>): Entries {
    Totals(OfKind(ts, "income"), [])
  }

  /** The spending per category adds up to the expenses plus the credit
      purchases. */
  lemma CatMapTotal(ts: seq<Transaction>)
    ensures ValuesSum(CatMap(ts)) == Total(ts, "expense") + Total(ts, "credit")
  {
    TotalsSum(OfKind(ts, "expense"), []);
    TotalsSum(OfKind(ts, "credit"), Totals(OfKind(ts, "expense"), []));
  }

  /** A category's spending is the sum of its expense and credit amounts, and
      it has an entry, exactly once, iff some expense or credit row has it. */
  lemma CatMapCategory(ts: seq<Transaction>, c: string)
    ensures Lookup(CatMap(ts), c) == CategorySum(OfKind(ts, "expense"), c) + CategorySum(OfKind(ts, "credit"), c)
    ensures UniqueKeys(CatMap(ts))
    ensures HasKey(CatMap(ts), c) <==>
      exists t :: t in ts && (t.kind == "expense" || t.kind == "credit") && t.category == c
  {
    var expenses := OfKind(ts, "expense");
    TotalsLookup(expenses, [], c);
    TotalsLookup(OfKind(ts, "credit"), Totals(expenses, []), c);
    TotalsKeys(expenses, [], c);
    TotalsKeys(OfKind(ts, "credit"), Totals(expenses, []), c);
    HasCategoryIff(expenses, c);
    HasCategoryIff(OfKind(ts, "credit"), c);
    assert !HasKey([], c);
  }

  /** A category's income is the sum of its income amounts, and it has an
      entry, exactly once, iff some income row has it. */
  lemma CatIncCategory(ts: seq<Transaction>, c: string)
    ensures Lookup(CatInc(ts), c) == CategorySum(OfKind(ts, "income"), c)
    ensures UniqueKeys(CatInc(ts))
    ensures HasKey(CatInc(ts), c) <==> exists t :: t in ts && t.kind == "income" && t.category == c
  {
    var incomes := OfKind(ts, "income");
    TotalsLookup(incomes, [], c);
    TotalsKeys(incomes, [], c);
    HasCategoryIff(incomes, c);
    assert !HasKey([], c);
  }

  /** `Object.entries(catMap).sort((a, b) => b[1] - a[1])[0]`: the sort is
      stable, so this is the first entry of largest value, and `undefined`
      for an empty record. */
  function TopCategory(e: Entries): (r: Option<(string, real)>)
    ensures r.None? <==> e == []
    ensures r.Some? ==> forall i :: 0 <= i < |e| ==> e[i].1 <= r.value.1
    ensures r.Some? ==> exists i :: 0 <= i < |e| && e[i] == r.value && forall j :: 0 <= j < i ==> e[j].1 < r.value.1
  {
    if e == [] then None
    else
      match TopCategory(e[1..])
      case None => Some(e[0])
      case Some(t) =>
        if e[0].1 >= t.1 then Some(e[0])
        else
          assert exists i :: 1 <= i < |e| && e[i] == t && forall j :: 1 <= j < i ==> e[j].1 < t.1 by {
            var k :| 0 <= k < |e[1..]| && e[1..][k] == t && forall j :: 0 <= j < k ==> e[1..][j].1 < t.1;
            assert e[k + 1] == t;
            forall j | 1 <= j < k + 1
              ensures e[j].1 < t.1
            {
              assert e[j] == e[1..][j - 1];
            }
          }
          Some(t)
  }

  /** The share of the income not spent on expenses, in percent; 0 without
      income. */
  function SavingsRate(income: real, expense: real): real {
    if income > 0.0 then (income - expense) / income * 100.0 else 0.0
  }

  /** The savings rate is 100% with no expenses, 0% when the expenses eat
      the whole income, negative when they exceed it, and never above 100%
      for non-negative expenses. */
  lemma SavingsRateRange(income: real, expense: real)
    requires income > 0.0
    ensures expense == 0.0 ==> SavingsRate(income, expense) == 100.0
    ensures expense == income ==> SavingsRate(income, expense) == 0.0
    ensures expense > income ==> SavingsRate(income, expense) < 0.0
    ensures expense >= 0.0 ==> SavingsRate(income, expense) <= 100.0
  {
    var q := expense / income;
    var r := (income - expense) / income;
    assert q * income == expense;
    assert r * income == income - expense;
    assert (r - (1.0 - q)) * income == 0.0;
    ZeroProduct(r - (1.0 - q), income);
    if expense >= 0.0 {
      assert q >= 0.0;
    }
    if expense > income {
      assert q > 1.0;
    }
  }

  lemma ZeroProduct(x: real, y: real)
    requires y > 0.0 && x * y == 0.0
    ensures x == 0.0
  {
    assert x == x * y / y;
  }

  /** The memoised statistics of the month. */
  datatype Stats = Stats(income: real, expense: real, creditTotal: real, balance: real,
                         savingsRate: real, topCategory: Option<(string, real)>,
                         catMap: Entries, catInc: Entries)

  /** The `forEach` that adds each row's amount to its category. */
  method AddAll(rows: seq<Transaction>, acc: Entries) returns (e: Entries)
    ensures e == Totals(rows, acc)
  {
    e := acc;
    for i := 0 to |rows|
      invariant e == Totals(rows[..i], acc)
    {
      assert rows[..i + 1][..i] == rows[..i];
      e := Add(e, rows[i].category, rows[i].amount);
    }
    assert rows[..|rows|] == rows;
  }

  /** The `stats` memo over the month's transactions. */
  method ComputeStats(filtered: seq<Transaction>) returns (s: Stats)
    ensures s.income == Total(filtered, "income") && s.expense == Total(filtered, "expense")
    ensures s.creditTotal == Total(filtered, "credit")
    ensures s.balance == s.income - s.expense - s.creditTotal
    ensures s.savingsRate == SavingsRate(s.income, s.expense)
    ensures s.catMap == CatMap(filtered) && s.catInc == CatInc(filtered)
    ensures s.topCategory == TopCategory(s.catMap)
  {
    var income := Total(filtered, "income");
    var expense := Total(filtered, "expense");
    var creditTotal := Total(filtered, "credit");
    var savingsRate := SavingsRate(income, expense);
    var catMap := AddAll(OfKind(filtered, "expense"), []);
    catMap := AddAll(OfKind(filtered, "credit"), catMap);
    var catInc := AddAll(OfKind(filtered, "income"), []);
    s := Stats(income, expense, creditTotal, income - expense - creditTotal, savingsRate,
               TopCategory(catMap), catMap, catInc);
  }

  // ---- the purchase form ----

  predicate IsDigit(c: char) {
    '0' <= c <= '9'
  }

  /** The longest prefix of decimal digits. */
  function LeadingDigits(s: string): (r: string)
    ensures |r| <= |s| && r == s[..|r|] && AllDigits(r)
    ensures |r| < |s| ==> !IsDigit(s[|r|])
  {
    if s == [] || !IsDigit(s[0]) then "" else [s[0]] + LeadingDigits(s[1..])
  }

  /** `parseInt(s)` for decimal text: leading white space, an optional sign,
      then the digits up to the first other character; `None` is NaN. */
  function ParseInt(s: string): (r: Option<int>)
  {
    var t := TrimStart(s);
    var negative := t != [] && t[0] == '-';
    var rest := if t != [] && (t[0] == '-' || t[0] == '+') then t[1..] else t;
    var d := LeadingDigits(rest);
    if d == [] then None
    else if negative then Some(0 - DigitsValue(d))
    else Some(DigitsValue(d))
  }

  /** `s.indexOf(c)`: the first position of `c`, or -1. */
  function IndexOf(s: string, c: char): (i: int)
    ensures c !in s <==> i == -1
    ensures c in s ==> 0 <= i < |s| && s[i] == c && c !in s[..i]
  {
    if s == [] then -1
    else if s[0] == c then 0
    else
      var j := IndexOf(s[1..], c);
      if j < 0 then -1
      else
        assert s[..j + 1] == [s[0]] + s[1..][..j];
        j + 1
  }

  /** `s.replace("x", "")`: the first "x" only is cut out. */
  function RemoveFirstX(s: string): (r: string)
    ensures 'x' !in s ==> r == s
    ensures 'x' in s ==> |r| == |s| - 1 && r[..IndexOf(s, 'x')] == s[..IndexOf(s, 'x')]
  {
    var i := IndexOf(s, 'x');
    if i < 0 then s else s[..i] + s[i + 1..]
  }

  /** `parseInt(installment.replace("x", "")) || 1`: NaN and 0 become 1. */
  function InstallmentCount(installment: string): (n: int)
    ensures n != 0
  {
    match ParseInt(RemoveFirstX(installment))
    case None => 1
    case Some(v) => if v == 0 then 1 else v
  }

  /** One decimal digit parses to its value. */
  lemma ParseDigit(c: char)
    requires IsDigit(c)
    ensures ParseInt([c]) == Some(c as int - '0' as int)
  {
    ParseDigitsText([c]);
    assert [c][..0] == [];
  }

  /** A text of decimal digits parses to the number it denotes. */
  lemma ParseDigitsText(s: string)
    requires s != [] && AllDigits(s)
    ensures ParseInt(s) == Some(DigitsValue(s))
  {
    assert !IsJsWhitespace(s[0]);
    AllLeadingDigits(s);
    ParseUnsigned(s);
  }

  /** Text that starts with a digit and no white space parses to the value
      of its leading digits. */
  lemma ParseUnsigned(s: string)
    requires s != [] && IsDigit(s[0]) && TrimStart(s) == s
    ensures ParseInt(s) == Some(DigitsValue(LeadingDigits(s)))
  {
  }

  /** A text of digits only is all leading digits. */
  lemma AllLeadingDigits(s: string)
    requires AllDigits(s)
    ensures LeadingDigits(s) == s
  {
    var r := LeadingDigits(s);
    if |r| < |s| {
      assert IsDigit(s[|r|]);
    }
  }

  /** The five choices "1x" to "5x" of the installment select read as 1 to 5. */
  lemma InstallmentChoices(c: char)
    requires '1' <= c <= '5'
    ensures InstallmentCount([c, 'x']) == c as int - '0' as int
  {
    assert IndexOf([c, 'x'], 'x') == 1;
    assert RemoveFirstX([c, 'x']) == [c];
    ParseDigit(c);
  }

  /** `${n}` for a positive integer: its decimal digits without leading zeros. */
  function DecimalText(n: nat): (s: string)
    ensures s != [] && AllDigits(s) && (|s| > 1 ==> s[0] != '0')
  {
    if n < 10 then [DigitChar(n)] else DecimalText(n / 10) + [DigitChar(n % 10)]
  }

  lemma {:induction false} DecimalTextValue(n: nat)
    ensures DigitsValue(DecimalText(n)) == n
  {
    var s := DecimalText(n);
    if n < 10 {
      assert s[..0] == [];
    } else {
      DecimalTextValue(n / 10);
      assert s[..|s| - 1] == DecimalText(n / 10);
    }
  }

  /** The iterations of the posting loop: the installments for a credit
      purchase, one record otherwise. */
  function Iterations(kind: string, n: int): int {
    if kind == "credit" then n else 1
  }

  /** The dates of the installments: the purchase moment moved on `i`
      months with `setMonth(getMonth() + i)`, as `toISOString` writes it,
      or `None` where it throws. */
  function InstallmentDates(current: DateTime): nat -> Option<string>
    requires current.Valid()
  {
    (i: nat) => ToISOString(SetMonth(At(current), current.month + i))
  }

  /** Installment `i` is dated the same day and time `i` months after the
      purchase, counted from the 1st of that month (a day past its end
      rolls over), and it has a date exactly when that moment is in range. */
  lemma InstallmentDate(current: DateTime, i: nat)
    requires current.Valid()
    ensures var y, m := current.year + (current.month + i) / 12, (current.month + i) % 12;
      var t := (DayNumber(y, m, 1) + current.day - 1) * MsPerDay + current.msOfDay;
      var date := InstallmentDates(current)(i);
      (date.Some? <==> -MaxTimeValue <= t <= MaxTimeValue) &&
      (date.Some? ==> exists r: DateTime :: r.Valid() && date.value == IsoText(r) && r.TimeValue() == t)
  {
    var d := SetMonth(At(current), current.month + i);
    assert InstallmentDates(current)(i) == ToISOString(d);
    ShiftMonths(current, i);
    ShiftMonthsInRange(current, i);
    if d.At? {
      assert ToISOString(d).value == IsoText(d.dt);
    }
  }

  /** What every record of one purchase shares: the description, the
      amount of each record, the kind as posted, the category, and the
      number of iterations of the posting loop. */
  datatype Plan = Plan(description: string, each: real, kind: string, category: string,
                       iterations: int)

  /** The plan of a purchase of `base` in `n` installments: a credit
      purchase is split into `n` equal records, anything else is one record
      of the whole amount; the kind is posted in upper case. */
  function PlanOf(description: string, base: real, kind: string, category: string, n: int): (p: Plan)
    requires n != 0
    ensures p.iterations == Iterations(kind, n)
  {
    Plan(description, if kind == "credit" then base / n as real else base, ToUpper(kind), category,
         Iterations(kind, n))
  }

  /** The record posted in iteration `i` with the date text `date`: the
      description gets the suffix " (i+1/n)" when there are several. */
  function InstallmentPayload(plan: Plan, i: nat, date: string): Payload {
    Payload(
      if plan.iterations > 1 then
        plan.description + " (" + DecimalText(i + 1) + "/" + DecimalText(plan.iterations) + ")"
      else plan.description,
      plan.each, plan.kind, plan.category, date)
  }

  /** The records the posting loop builds before it ends or throws: those
      of the first iterations, up to the first date out of range. */
  function PostedPrefix(plan: Plan, dates: nat -> Option<string>): seq<Payload> {
    PrefixFrom(plan, dates, 0)
  }

  function PrefixFrom(plan: Plan, dates: nat -> Option<string>, i: nat): seq<Payload>
    decreases plan.iterations - i
  {
    if i >= plan.iterations then []
    else
      match dates(i)
      case None => []
      case Some(date) => [InstallmentPayload(plan, i, date)] + PrefixFrom(plan, dates, i + 1)
  }

  /** From iteration `i` on, the loop posts the record of each following
      iteration in order, and stops before the last one only at a date out
      of range. */
  lemma {:induction false} PrefixFromRecords(plan: Plan, dates: nat -> Option<string>, i: nat)
    ensures var r := PrefixFrom(plan, dates, i);
      (|r| == 0 || i + |r| <= plan.iterations) &&
      (forall j :: 0 <= j < |r| ==>
        dates(i + j) == Some(r[j].date) && r[j] == InstallmentPayload(plan, i + j, r[j].date)) &&
      (i + |r| < plan.iterations ==> dates(i + |r|).None?)
  {
    PrefixFromEnds(plan, dates, i);
    forall j | 0 <= j < |PrefixFrom(plan, dates, i)|
      ensures var r := PrefixFrom(plan, dates, i);
        dates(i + j) == Some(r[j].date) && r[j] == InstallmentPayload(plan, i + j, r[j].date)
    {
      PrefixFromRecord(plan, dates, i, j);
      assert InstallmentPayload(plan, i + j, dates(i + j).value).date == dates(i + j).value;
    }
  }

  /** The records stop at the last iteration or at the first date that
      throws. */
  lemma {:induction false} PrefixFromEnds(plan: Plan, dates: nat -> Option<string>, i: nat)
    ensures var r := PrefixFrom(plan, dates, i);
      (|r| == 0 || i + |r| <= plan.iterations) && (i + |r| < plan.iterations ==> dates(i + |r|).None?)
    decreases plan.iterations - i
  {
    if i < plan.iterations && dates(i).Some? {
      PrefixFromEnds(plan, dates, i + 1);
    }
  }

  /** Record `j` from iteration `i` on is the payload of iteration `i + j`,
      dated as that iteration. */
  lemma {:induction false} PrefixFromRecord(plan: Plan, dates: nat -> Option<string>, i: nat, j: nat)
    requires j < |PrefixFrom(plan, dates, i)|
    ensures dates(i + j).Some? && PrefixFrom(plan, dates, i)[j] == InstallmentPayload(plan, i + j, dates(i + j).value)
    decreases j
  {
    if j > 0 {
      var r, rest := PrefixFrom(plan, dates, i), PrefixFrom(plan, dates, i + 1);
      PrefixFromRecord(plan, dates, i + 1, j - 1);
      assert r[j] == rest[j - 1];
      assert i + 1 + (j - 1) == i + j;
    }
  }

  function AmountsSum(ps: seq<Payload>): real {
    if ps == [] then 0.0 else AmountsSum(ps[..|ps| - 1]) + ps[|ps| - 1].amount
  }

  lemma {:induction false} EqualAmountsSum(ps: seq<Payload>, x: real)
    requires forall j :: 0 <= j < |ps| ==> ps[j].amount == x
    ensures AmountsSum(ps) == |ps| as real * x
  {
    if ps != [] {
      EqualAmountsSum(ps[..|ps| - 1], x);
    }
  }

  /** When every installment of a credit purchase of `n` installments is
      posted, their amounts add up to the purchase's amount. */
  lemma InstallmentsAddUp(description: string, base: real, category: string,
                          n: int, dates: nat -> Option<string>)
    requires n >= 1
    requires |PostedPrefix(PlanOf(description, base, "credit", category, n), dates)| == n
    ensures AmountsSum(PostedPrefix(PlanOf(description, base, "credit", category, n), dates)) == base
  {
    var plan := PlanOf(description, base, "credit", category, n);
    var ps := PostedPrefix(plan, dates);
    PrefixFromRecords(plan, dates, 0);
    assert plan.each == base / n as real;
    EvenSplitSum(ps, base, n);
  }

  /** `n` records of a `n`-th of `base` each add up to `base`. */
  lemma EvenSplitSum(ps: seq<Payload>, base: real, n: int)
    requires n >= 1 && |ps| == n
    requires forall j :: 0 <= j < |ps| ==> ps[j].amount == base / n as real
    ensures AmountsSum(ps) == base
  {
    EqualAmountsSum(ps, base / n as real);
    var d := n as real;
    assert |ps| as real == d;
    assert d * (base / d) == base;
  }

  /** The `for` loop of `handleAddTransaction`: iteration `i` takes its date
      from `dates(i)` and posts one record, a failed post skipped by the
      `catch`; `completed` is false when a date made `toISOString` throw. */
  method PostInstallments(plan: Plan, dates: nat -> Option<string>) returns (posted: seq<Payload>, completed: bool)
    ensures posted == PostedPrefix(plan, dates)
    ensures completed <==> |posted| >= plan.iterations
  {
    posted := [];
    var i := 0;
    while i < plan.iterations
      invariant 0 <= i && |posted| == i && (plan.iterations >= 0 ==> i <= plan.iterations)
      invariant PostedPrefix(plan, dates) == posted + PrefixFrom(plan, dates, i)
    {
      var date := dates(i);
      if date.None? {
        return posted, false;
      }
      var payload := InstallmentPayload(plan, i, date.value);
      assert PrefixFrom(plan, dates, i) == [payload] + PrefixFrom(plan, dates, i + 1);
      assert posted + ([payload] + PrefixFrom(plan, dates, i + 1))
        == (posted + [payload]) + PrefixFrom(plan, dates, i + 1);
      posted := posted + [payload];
      i := i + 1;
    }
    completed := true;
  }

  /** `transactions.filter(t => t.id !== id)`: the others, in their order. */
  function WithoutTransaction(ts: seq<Transaction>, id: string): (r: seq<Transaction>)
    ensures |r| <= |ts|
    ensures forall t :: t in r <==> t in ts && t.id != id
  {
    Lists.Filter(ts, (t: Transaction) => t.id != id)
  }

  /** Deleting from a list in two parts deletes from each part in place, so
      the remaining transactions keep their order. */
  lemma WithoutTransactionAppend(a: seq<Transaction>, b: seq<Transaction>, id: string)
    ensures WithoutTransaction(a + b, id) == WithoutTransaction(a, id) + WithoutTransaction(b, id)
  {
    Lists.FilterAppend(a, b, (t: Transaction) => t.id != id);
  }

  /** Deleting an id no transaction carries changes nothing. */
  lemma WithoutAbsentTransaction(ts: seq<Transaction>, id: string)
    requires forall t :: t in ts ==> t.id != id
    ensures WithoutTransaction(ts, id) == ts
  {
    Lists.FilterKeepsAll(ts, (t: Transaction) => t.id != id);
  }

  /** The dashboard's state: the loaded list, the form, and the shown month. */
  class DashboardPage {
    var transactions: seq<Transaction>
    var description: string
    var amount: string
    var kind: string
    var installment: string
    var category: string
    var currentDate: DateTime

    /** The first render at the moment `now`. */
    constructor (now: DateTime)
      requires now.Valid()
      ensures transactions == [] && description == "" && amount == ""
      ensures kind == "expense" && installment == "1x" && category == "Moradia"
      ensures currentDate == now
    {
      transactions := [];
      description, amount := "", "";
      kind, installment, category := "expense", "1x", "Moradia";
      currentDate := now;
    }

    /** `loadTransactions` with the reply rows, or `None` when the request
        fails and the list is kept. */
    method Loaded(reply: Option<seq<RawTransaction>>)
      modifies this
      ensures reply.Some? ==> transactions == FromServerAll(reply.value)
      ensures reply.None? ==> transactions == old(transactions)
      ensures description == old(description) && amount == old(amount) && kind == old(kind)
      ensures installment == old(installment) && category == old(category) && currentDate == old(currentDate)
    {
      if reply.Some? {
        transactions := FromServerAll(reply.value);
      }
    }

    /** `handleAddTransaction`, where `base` is `parseFloat(amount)`: nothing
        with an empty description or amount; otherwise the installments are
        posted and, unless `toISOString` threw, the form is reset. */
    method AddTransaction(base: real) returns (posted: seq<Payload>)
      requires currentDate.Valid()
      modifies this
      ensures transactions == old(transactions) && kind == old(kind) && category == old(category)
      ensures currentDate == old(currentDate)
      ensures old(description) == "" || old(amount) == "" ==>
        posted == [] && description == old(description) && amount == old(amount) && installment == old(installment)
      ensures old(description) != "" && old(amount) != "" ==>
        var n := InstallmentCount(old(installment));
        var plan := PlanOf(old(description), base, kind, category, n);
        posted == PostedPrefix(plan, InstallmentDates(currentDate)) &&
        (|posted| < plan.iterations ==>
          description == old(description) && amount == old(amount) && installment == old(installment)) &&
        (|posted| >= plan.iterations ==> description == "" && amount == "" && installment == "1x")
    {
      posted := [];
      if description == "" || amount == "" {
        return;
      }
      var plan := PlanOf(description, base, kind, category, InstallmentCount(installment));
      var completed;
      posted, completed := PostInstallments(plan, InstallmentDates(currentDate));
      if completed {
        ClearForm();
      }
    }

    /** The form goes back to its initial values once every installment
        is posted. */
    method ClearForm()
      modifies this
      ensures description == "" && amount == "" && installment == "1x"
      ensures transactions == old(transactions) && kind == old(kind) && category == old(category)
      ensures currentDate == old(currentDate)
    {
      description, amount, installment := "", "", "1x";
    }

    /** `handleDeleteTransaction`: after the request, whatever its outcome,
        every transaction with the id is dropped. */
    method DeleteTransaction(id: string)
      modifies this
      ensures transactions == WithoutTransaction(old(transactions), id)
      ensures description == old(description) && amount == old(amount) && kind == old(kind)
      ensures installment == old(installment) && category == old(category) && currentDate == old(currentDate)
    {
      transactions := WithoutTransaction(transactions, id);
    }
  }
}
