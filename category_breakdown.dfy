/** The category breakdown (lib/api/analytics/category-breakdown.ts): the
    fetched expenses grouped by `category_id`, each group with its display
    name, total, share of the grand total in whole percent and chart
    colour; and the text hash that colours codes outside the palette. The
    two backend queries are inputs: their rows (already restricted to the
    date range and to undeleted expenses) and their errors. Amounts are
    integers in minor units. */
module CategoryBreakdowns {
  import opened Wrappers
  import opened Seqs
  import opened Strings
  import opened Tallies
  import opened CategoryColors

  /** A row of `select("id, code, description")` on `categories`. */
  datatype CategoryRow = CategoryRow(id: int, code: string, description: string)

  /** A row of `select("category_id, amount")` on `expenses`. */
  datatype ExpenseRow = ExpenseRow(categoryId: int, amount: int)

  datatype CategoryBreakdown = CategoryBreakdown(category: string, amount: int, percentage: int, fill: string)

  /** What `getCategoryBreakdown` throws: an `Error` with a message, or the
      `TypeError` of calling `find` on a missing category list. */
  datatype BreakdownError = Failed(message: string) | NoCategoryList

  const CATEGORIES_FAILED: string := "Failed to fetch categories: "
  const BREAKDOWN_FAILED: string := "Failed to fetch category breakdown: "

  // ---------------------------------------------------------------------
  // generateColorFromText

  const TWO32: int := 0x1_0000_0000

  /** ECMAScript ToInt32: the signed 32-bit integer congruent to `x`. */
  function Int32(x: int): (r: int)
    ensures -0x8000_0000 <= r < 0x8000_0000
    ensures r % TWO32 == x % TWO32
  {
    var m := x % TWO32;
    if m >= 0x8000_0000 then m - TWO32 else m
  }

  /** `h << 5`. */
  function ShiftLeft5(h: int): int
  {
    Int32(Int32(h) * 32)
  }

  /** The reference hash: `h := 31 * h + code` for each character, modulo 2^32. */
  function Hash31(s: string): (h: int)
    ensures 0 <= h < TWO32
  {
    if s == [] then 0 else (31 * Hash31(s[..|s| - 1]) + s[|s| - 1] as int) % TWO32
  }

  /** One loop step keeps the hash congruent to the reference hash. */
  lemma HashStep(h: int, c: int)
    ensures (c + (ShiftLeft5(h) - h)) % TWO32 == (31 * (h % TWO32) + c) % TWO32
  {
    var a := Int32(h);
    var sh := ShiftLeft5(h);
    // a == h + TWO32 * ka and sh == 32 * a + TWO32 * ks, for some ka and ks
    var ka := (a - h) / TWO32;
    ModEqual(a, h);
    var ks := (sh - 32 * a) / TWO32;
    ModEqual(sh, 32 * a);
    var q := h / TWO32;
    assert h == TWO32 * q + h % TWO32;
    assert c + (sh - h) == (31 * (h % TWO32) + c) + TWO32 * (32 * ka + ks + 31 * q);
    ModAddMultiple(31 * (h % TWO32) + c, 32 * ka + ks + 31 * q);
  }

  /** Adding a multiple of 2^32 does not change a value modulo 2^32. */
  lemma ModAddMultiple(x: int, k: int)
    ensures (x + TWO32 * k) % TWO32 == x % TWO32
  {
    var q, r := x / TWO32, x % TWO32;
    assert x + TWO32 * k == TWO32 * (q + k) + r;
  }

  /** Values congruent modulo 2^32 differ by a multiple of 2^32. */
  lemma ModEqual(x: int, y: int)
    requires x % TWO32 == y % TWO32
    ensures x == y + TWO32 * ((x - y) / TWO32)
  {
    var qx, qy := x / TWO32, y / TWO32;
    assert x == TWO32 * qx + x % TWO32;
    assert y == TWO32 * qy + y % TWO32;
    assert x - y == TWO32 * (qx - qy);
  }

  /** Byte `n` (0 = lowest) of the 32-bit pattern of `h`: `(h >> 8n) & 255`. */
  function HashByte(h: int, n: nat): (b: int)
    requires n < 4
    ensures 0 <= b < 256
  {
    var u := h % TWO32;
    if n == 0 then u % 256 else if n == 1 then (u / 256) % 256
    else if n == 2 then (u / 65536) % 256 else u / 0x100_0000
  }

  /** The bytes depend only on `h` modulo 2^32. */
  lemma HashByteLow(h: int)
    ensures forall n :: 0 <= n < 4 ==> HashByte(h, n) == HashByte(h % TWO32, n)
  {
    assert (h % TWO32) % TWO32 == h % TWO32;
  }

  /** `'#' + rr + gg + bb` for three bytes. */
  function HexColor(r: int, g: int, b: int): string
    requires 0 <= r < 256 && 0 <= g < 256 && 0 <= b < 256
  {
    "#" + HexByte(r) + HexByte(g) + HexByte(b)
  }

  /** `#rrggbb` from bytes 2, 1 and 0 of `h`. */
  function ColorFromHash(h: int): string
  {
    HexColor(HashByte(h, 2), HashByte(h, 1), HashByte(h, 0))
  }

  /** The colour `generateColorFromText` gives `text`. */
  function ColorFromText(text: string): string
  {
    ColorFromHash(Hash31(text))
  }

  /** `generateColorFromText`: the running hash is the JavaScript number the
      source computes, whose shift wraps to 32 bits but whose subtraction
      and addition do not. */
  method GenerateColorFromText(text: string) returns (color: string)
    ensures color == ColorFromText(text)
  {
    var hash := 0;
    for i := 0 to |text|
      invariant hash % TWO32 == Hash31(text[..i])
    {
      assert text[..i + 1][..i] == text[..i];
      HashStep(hash, text[i] as int);
      hash := text[i] as int + (ShiftLeft5(hash) - hash);
    }
    assert text[..|text|] == text;
    HashByteLow(hash);
    var r := HashByte(hash, 2);
    var g := HashByte(hash, 1);
    var b := HashByte(hash, 0);
    color := HexColor(r, g, b);
  }

  /** A colour is '#' and six lower-case hex digits, which read back as
      the three bytes. */
  lemma HexColorFacts(r: int, g: int, b: int)
    requires 0 <= r < 256 && 0 <= g < 256 && 0 <= b < 256
    ensures var c := HexColor(r, g, b);
            |c| == 7 && c[0] == '#' && (forall i :: 1 <= i < 7 ==> IsHexDigit(c[i])) &&
            16 * HexDigitValue(c[1]) + HexDigitValue(c[2]) == r &&
            16 * HexDigitValue(c[3]) + HexDigitValue(c[4]) == g &&
            16 * HexDigitValue(c[5]) + HexDigitValue(c[6]) == b
  {
    HexColorChars(r, g, b);
    HexDigitInverse(r / 16);
    HexDigitInverse(r % 16);
    HexDigitInverse(g / 16);
    HexDigitInverse(g % 16);
    HexDigitInverse(b / 16);
    HexDigitInverse(b % 16);
  }

  lemma HexColorChars(r: int, g: int, b: int)
    requires 0 <= r < 256 && 0 <= g < 256 && 0 <= b < 256
    ensures HexColor(r, g, b) == ['#', HexDigitChar(r / 16), HexDigitChar(r % 16), HexDigitChar(g / 16),
                                  HexDigitChar(g % 16), HexDigitChar(b / 16), HexDigitChar(b % 16)]
  {
    HexByteDigits(r);
    HexByteDigits(g);
    HexByteDigits(b);
    ConcatPairs(HexByte(r), HexByte(g), HexByte(b));
  }

  lemma ConcatPairs(x: string, y: string, z: string)
    requires |x| == 2 && |y| == 2 && |z| == 2
    ensures "#" + x + y + z == ['#', x[0], x[1], y[0], y[1], z[0], z[1]]
  {
  }

  /** Bytes 2, 1 and 0 make up the low 24 bits of the hash. */
  lemma HashBytesLow24(h: int)
    ensures 65536 * HashByte(h, 2) + 256 * HashByte(h, 1) + HashByte(h, 0) == h % 0x100_0000
  {
    var u := h % TWO32;
    assert HashByte(h, 0) == u % 256 && HashByte(h, 1) == (u / 256) % 256 && HashByte(h, 2) == (u / 65536) % 256;
    LowThreeBytes(u);
    LowBitsOfMod(h);
  }

  lemma LowThreeBytes(u: int)
    ensures 65536 * ((u / 65536) % 256) + 256 * ((u / 256) % 256) + u % 256 == u % 0x100_0000
  {
    var a, u1 := u % 256, u / 256;
    var b, u2 := u1 % 256, u1 / 256;
    var c, d := u2 % 256, u2 / 256;
    assert u == 256 * u1 + a;
    assert u1 == 256 * u2 + b;
    assert u2 == 256 * d + c;
    SplitAt65536(u, u2, 256 * b + a);
    SplitAt2To24(u, d, 65536 * c + 256 * b + a);
  }

  lemma SplitAt65536(u: int, q: int, r: int)
    requires u == 65536 * q + r && 0 <= r < 65536
    ensures u / 65536 == q
  {
  }

  lemma SplitAt2To24(u: int, q: int, r: int)
    requires u == 0x100_0000 * q + r && 0 <= r < 0x100_0000
    ensures u % 0x100_0000 == r
  {
  }

  /** The low 24 bits survive reduction modulo 2^32. */
  lemma LowBitsOfMod(h: int)
    ensures (h % TWO32) % 0x100_0000 == h % 0x100_0000
  {
    var k, u := h / TWO32, h % TWO32;
    var q, r := u / 0x100_0000, u % 0x100_0000;
    assert h == TWO32 * k + u;
    assert u == 0x100_0000 * q + r;
    SplitAt2To24(h, 256 * k + q, r);
  }

  // ---------------------------------------------------------------------
  // grouping and labelling

  function Entries(rows: seq<ExpenseRow>): (e: seq<Entry<int>>)
    ensures |e| == |rows|
    ensures forall i :: 0 <= i < |rows| ==> e[i] == Entry(rows[i].categoryId, rows[i].amount)
  {
    if rows == [] then [] else [Entry(rows[0].categoryId, rows[0].amount)] + Entries(rows[1..])
  }

  /** The largest array index; `Object.entries` lists the keys 0..MAX_INDEX
      first, ascending, and every other key after them in insertion order. */
  const MAX_INDEX: int := 0xFFFF_FFFE

  function OrderKey(k: int): int
  {
    if 0 <= k <= MAX_INDEX then k else MAX_INDEX + 1
  }

  /** The `Object.entries` order of keys inserted in the order `order`. */
  function EntriesOrder(order: seq<int>): seq<int>
  {
    SortByKey(order, OrderKey)
  }

  /** `categories.find(cat => cat.id === id)`: the first row with that id. */
  function FindCategory(cats: seq<CategoryRow>, id: int): (r: Option<CategoryRow>)
    ensures r.Some? ==> r.value in cats && r.value.id == id
    ensures r.None? <==> forall i :: 0 <= i < |cats| ==> cats[i].id != id
  {
    if cats == [] then None else if cats[0].id == id then Some(cats[0]) else FindCategory(cats[1..], id)
  }

  /** `categoryRecord?.code || 'Other'`. */
  function CodeOf(found: Option<CategoryRow>): string
  {
    if found.Some? && found.value.code != "" then found.value.code else "Other"
  }

  /** `categoryRecord?.description || 'Unknown'`. */
  function DisplayNameOf(found: Option<CategoryRow>): string
  {
    if found.Some? && found.value.description != "" then found.value.description else "Unknown"
  }

  /** `Math.round(amount / total * 100)` for a positive total, else 0. */
  function Percentage(amount: int, total: int): int
  {
    if total > 0 then (200 * amount + total) / (2 * total) else 0
  }

  /** The percentage is the nearest whole number to 100 * amount / total,
      halves rounding up. */
  lemma PercentageNearest(amount: int, total: int)
    requires total > 0
    ensures 2 * total * Percentage(amount, total) <= 200 * amount + total
    ensures 200 * amount + total < 2 * total * (Percentage(amount, total) + 1)
  {
    var d, n := 2 * total, 200 * amount + total;
    assert n == d * (n / d) + n % d;
  }

  /** With no positive total the percentage is 0; for a share of the total
      it lies in 0..100. */
  lemma PercentageRange(amount: int, total: int)
    ensures total <= 0 ==> Percentage(amount, total) == 0
    ensures 0 <= amount <= total ==> 0 <= Percentage(amount, total) <= 100
  {
    if 0 <= amount <= total && total > 0 {
      var p := Percentage(amount, total);
      PercentageNearest(amount, total);
      assert total * (2 * p - 201) <= 0;
      assert total * (2 * p + 2) > 0;
      SignOfProduct(total, 2 * p - 201);
      SignOfProduct(total, 2 * p + 2);
    }
  }

  lemma SignOfProduct(a: int, b: int)
    requires a > 0
    ensures a * b <= 0 ==> b <= 0
    ensures a * b > 0 ==> b > 0
  {
  }

  /** The chart colour of a code: the palette fill, except that the Food
      orange given to a code other than "Food" is replaced by the hash colour. */
  function FillFor(code: string): string
  {
    var base := GetCategoryHexColor(code);
    if base == FOOD_FILL && code != "Food" then ColorFromText(code) else base
  }

  /** Codes of the palette get its fill; every other code its hash colour. */
  lemma FillRule(code: string)
    ensures code in CATEGORY_NAMES ==> FillFor(code) == CATEGORY_COLORS[code].fill
    ensures code !in CATEGORY_NAMES ==> FillFor(code) == ColorFromText(code)
  {
    FoodFillExactly(code);
  }

  /** The entry of category `id` with total `amount` out of `total`. */
  function EntryFor(cats: seq<CategoryRow>, id: int, amount: int, total: int): CategoryBreakdown
  {
    var found := FindCategory(cats, id);
    CategoryBreakdown(DisplayNameOf(found), amount, Percentage(amount, total), FillFor(CodeOf(found)))
  }

  /** A category id with no row is shown as "Unknown" in the colour of "Other". */
  lemma UnknownCategory(cats: seq<CategoryRow>, id: int, amount: int, total: int)
    requires forall i :: 0 <= i < |cats| ==> cats[i].id != id
    ensures EntryFor(cats, id, amount, total).category == "Unknown"
    ensures EntryFor(cats, id, amount, total).fill == CATEGORY_COLORS["Other"].fill
  {
  }

  /** The `map` over the entries. */
  function EntriesFor(cats: seq<CategoryRow>, keys: seq<int>, totals: map<int, int>, total: int): (r: seq<CategoryBreakdown>)
    ensures |r| == |keys|
    ensures forall i :: 0 <= i < |keys| ==> r[i] == EntryFor(cats, keys[i], TotalOf(totals)(keys[i]), total)
  {
    if keys == [] then []
    else [EntryFor(cats, keys[0], TotalOf(totals)(keys[0]), total)] + EntriesFor(cats, keys[1..], totals, total)
  }

  function BreakdownAmount(b: CategoryBreakdown): int
  {
    b.amount
  }

  lemma {:induction false} EntriesForSum(cats: seq<CategoryRow>, keys: seq<int>, totals: map<int, int>, total: int)
    ensures SumOf(EntriesFor(cats, keys, totals, total), BreakdownAmount) == SumOf(keys, TotalOf(totals))
  {
    if keys != [] {
      EntriesForSum(cats, keys[1..], totals, total);
      assert EntriesFor(cats, keys, totals, total)[1..] == EntriesFor(cats, keys[1..], totals, total);
    }
  }

  /** The category ids of the fetched rows, in `Object.entries` order. */
  function BreakdownKeys(rows: seq<ExpenseRow>): seq<int>
  {
    EntriesOrder(TallyOf(Entries(rows)).order)
  }

  /** `getCategoryBreakdown` as a function of the two answers. */
  function BreakdownOf(cats: Option<seq<CategoryRow>>, catsError: Option<string>,
                       data: Option<seq<ExpenseRow>>, dataError: Option<string>): Result<seq<CategoryBreakdown>, BreakdownError>
  {
    if catsError.Some? then Err(Failed(CATEGORIES_FAILED + catsError.value))
    else if dataError.Some? then Err(Failed(BREAKDOWN_FAILED + dataError.value))
    else
      var rows := if data.Some? then data.value else [];
      var t := TallyOf(Entries(rows));
      var keys := EntriesOrder(t.order);
      if keys != [] && cats.None? then Err(NoCategoryList)
      else
        var list := if cats.Some? then cats.value else [];
        Ok(EntriesFor(list, keys, t.totals, SumOf(keys, TotalOf(t.totals))))
  }

  /** `getCategoryBreakdown`. */
  method GetCategoryBreakdown(cats: Option<seq<CategoryRow>>, catsError: Option<string>,
                              data: Option<seq<ExpenseRow>>, dataError: Option<string>)
    returns (r: Result<seq<CategoryBreakdown>, BreakdownError>)
    ensures r == BreakdownOf(cats, catsError, data, dataError)
  {
    if catsError.Some? {
      return Err(Failed(CATEGORIES_FAILED + catsError.value));
    }
    if dataError.Some? {
      return Err(Failed(BREAKDOWN_FAILED + dataError.value));
    }
    var rows := if data.Some? then data.value else [];
    var order, totals := TallyEntries(Entries(rows));
    var keys := SortByKey(order, OrderKey);
    var total := SumOf(keys, TotalOf(totals));
    if keys != [] && cats.None? {
      return Err(NoCategoryList);
    }
    var list := if cats.Some? then cats.value else [];
    r := Ok(EntriesFor(list, keys, totals, total));
  }

  /** A failed query is reported with its message, categories first. */
  lemma BreakdownErrors(cats: Option<seq<CategoryRow>>, catsError: Option<string>,
                        data: Option<seq<ExpenseRow>>, dataError: Option<string>)
    ensures catsError.Some? ==> BreakdownOf(cats, catsError, data, dataError) == Err(Failed(CATEGORIES_FAILED + catsError.value))
    ensures catsError.None? && dataError.Some? ==>
              BreakdownOf(cats, catsError, data, dataError) == Err(Failed(BREAKDOWN_FAILED + dataError.value))
    ensures catsError.None? && dataError.None? && cats.Some? ==> BreakdownOf(cats, catsError, data, dataError).Ok?
  {
  }

  /** The keys: one per distinct `category_id` of the rows, each once,
      array-index ids ascending before any other, and the other ids in the
      order they were first inserted. */
  lemma BreakdownKeysFacts(rows: seq<ExpenseRow>)
    ensures Distinct(BreakdownKeys(rows))
    ensures forall k :: k in BreakdownKeys(rows) <==> exists i :: 0 <= i < |rows| && rows[i].categoryId == k
    ensures SortedByKey(BreakdownKeys(rows), OrderKey)
    ensures WithKey(BreakdownKeys(rows), OrderKey, MAX_INDEX + 1) ==
            WithKey(TallyOf(Entries(rows)).order, OrderKey, MAX_INDEX + 1)
  {
    var e := Entries(rows);
    var t := TallyOf(e);
    var keys := BreakdownKeys(rows);
    TallyOrder(e);
    TallyKeys(e);
    SortByKeyFacts(t.order, OrderKey);
    forall k ensures k in keys <==> k in t.order {
      assert k in keys <==> k in multiset(keys);
    }
    forall k ensures k in t.totals <==> exists i :: 0 <= i < |rows| && rows[i].categoryId == k {
      if i :| 0 <= i < |rows| && rows[i].categoryId == k {
        assert e[i].key == k;
      }
      if i :| 0 <= i < |e| && e[i].key == k {
        assert rows[i].categoryId == k;
      }
    }
    DistinctPermutation(t.order, keys);
  }

  /** With no query error and a category list, the entry of each key has as
      amount the sum of that category's amounts, and the amounts add up to
      the sum of all fetched amounts. */
  lemma BreakdownAmounts(cats: seq<CategoryRow>, rows: seq<ExpenseRow>)
    ensures var r := BreakdownOf(Some(cats), None, Some(rows), None);
            var keys := BreakdownKeys(rows);
            r.Ok? && |r.value| == |keys| &&
            (forall i :: 0 <= i < |keys| ==>
               r.value[i].amount == TotalFor(Entries(rows), keys[i]) &&
               r.value[i].category == DisplayNameOf(FindCategory(cats, keys[i])) &&
               r.value[i].fill == FillFor(CodeOf(FindCategory(cats, keys[i])))) &&
            SumOf(r.value, BreakdownAmount) == SumOf(Entries(rows), Amount)
  {
    var t := TallyOf(Entries(rows));
    BreakdownValue(cats, rows);
    TotalOfIsTotalFor(Entries(rows));
    EntriesForSum(cats, BreakdownKeys(rows), t.totals, SumOf(Entries(rows), Amount));
    BreakdownTotal(rows);
  }

  /** With no query error and a category list, the breakdown is one entry
      per key, the percentages taken of the sum of all amounts. */
  lemma BreakdownValue(cats: seq<CategoryRow>, rows: seq<ExpenseRow>)
    ensures BreakdownOf(Some(cats), None, Some(rows), None) ==
            Ok(EntriesFor(cats, BreakdownKeys(rows), TallyOf(Entries(rows)).totals, SumOf(Entries(rows), Amount)))
  {
    BreakdownTotal(rows);
  }

  /** The totals of the keys add up to the sum of all amounts. */
  lemma BreakdownTotal(rows: seq<ExpenseRow>)
    ensures SumOf(BreakdownKeys(rows), TotalOf(TallyOf(Entries(rows)).totals)) == SumOf(Entries(rows), Amount)
  {
    var t := TallyOf(Entries(rows));
    TallySum(Entries(rows));
    SortByKeyFacts(t.order, OrderKey);
    SumOfPermutation(BreakdownKeys(rows), t.order, TotalOf(t.totals));
  }

  /** With no negative amount every percentage lies in 0..100. */
  lemma BreakdownPercentages(cats: seq<CategoryRow>, rows: seq<ExpenseRow>)
    requires forall i :: 0 <= i < |rows| ==> rows[i].amount >= 0
    ensures var r := BreakdownOf(Some(cats), None, Some(rows), None);
            r.Ok? && forall i :: 0 <= i < |r.value| ==> 0 <= r.value[i].percentage <= 100
  {
    var e := Entries(rows);
    var keys := BreakdownKeys(rows);
    var r := BreakdownOf(Some(cats), None, Some(rows), None);
    BreakdownValue(cats, rows);
    TotalOfIsTotalFor(e);
    forall i | 0 <= i < |r.value| ensures 0 <= r.value[i].percentage <= 100 {
      TotalForBounds(e, keys[i]);
      PercentageRange(r.value[i].amount, SumOf(e, Amount));
    }
  }
}
