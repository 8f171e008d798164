/** The add-expense page (app/add/page.tsx): its form state, the
    category table behind the two selects, the validator, field edits, and
    the submit that resets the form. The current date reaches the page as
    the `YYYY-MM-DD` string it would format; navigation is left out. */
module AddExpenseForm {
  import opened Wrappers
  import opened Strings

  /** The form's fields, by their `name`. */
  datatype Field = Amount | Date | Category | Subcategory | Description

  datatype FormData = FormData(amount: string, date: string, category: string, subcategory: string, description: string)

  /** One entry of `CATEGORIES_DATA`: key, display label and subcategories. */
  datatype CategoryData = CategoryData(key: string, name: string, subcategories: seq<string>)

  const CATEGORIES_DATA: seq<CategoryData> := [
    CategoryData("Food", "Food", ["Groceries", "Dining Out", "Coffee"]),
    CategoryData("Transport", "Transport", ["Fuel", "Public Transit", "Taxi"]),
    CategoryData("Housing", "Housing", ["Rent", "Utilities", "Maintenance"]),
    CategoryData("Entertainment", "Entertainment", ["Movies", "Games", "Events"]),
    CategoryData("Health", "Health", ["Medicine", "Doctor", "Fitness"]),
    CategoryData("Shopping", "Shopping", ["Clothing", "Electronics", "Home"]),
    CategoryData("Bills", "Bills", ["Internet", "Phone", "Insurance"]),
    CategoryData("Other", "Other", ["Miscellaneous"])
  ]

  const DEFAULT_CATEGORY: string := "Food"
  const DEFAULT_SUBCATEGORY: string := "Groceries"

  const AMOUNT_ERROR: string := "Amount must be greater than 0"
  const CATEGORY_ERROR: string := "Please select a category"
  const SUBCATEGORY_ERROR: string := "Please select a subcategory"
  const DATE_ERROR: string := "Please select a date"

  // ---------------------------------------------------------------------
  // CATEGORIES_DATA

  /** `CATEGORIES_DATA[c]`, absent when `c` is not a key. */
  function LookupCategory(c: string): (r: Option<CategoryData>)
    ensures r.Some? ==> r.value in CATEGORIES_DATA && r.value.key == c
    ensures r.None? <==> forall i :: 0 <= i < |CATEGORIES_DATA| ==> CATEGORIES_DATA[i].key != c
  {
    FindKey(CATEGORIES_DATA, c)
  }

  function FindKey(s: seq<CategoryData>, c: string): (r: Option<CategoryData>)
    ensures r.Some? ==> r.value in s && r.value.key == c
    ensures r.None? <==> forall i :: 0 <= i < |s| ==> s[i].key != c
  {
    if s == [] then None
    else if s[0].key == c then Some(s[0])
    else
      var r := FindKey(s[1..], c);
      assert forall i :: 1 <= i < |s| ==> s[i] == s[1..][i - 1];
      r
  }

  /** `CATEGORIES_DATA[category]?.subcategories || []`: the options of the
      subcategory select. */
  function SubcategoriesOf(c: string): seq<string>
  {
    match LookupCategory(c)
    case None => []
    case Some(entry) => entry.subcategories
  }

  /** `CATEGORIES_DATA[c]?.subcategories[0] || ""`. */
  function FirstSubcategory(c: string): string
  {
    var subs := SubcategoriesOf(c);
    if |subs| > 0 then subs[0] else ""
  }

  /** The table: eight categories, each labelled by its own key, keys
      pairwise distinct, and every category with at least one non-empty
      subcategory. */
  lemma CategoriesDataFacts()
    ensures |CATEGORIES_DATA| == 8
    ensures forall i, j :: 0 <= i < j < |CATEGORIES_DATA| ==> CATEGORIES_DATA[i].key != CATEGORIES_DATA[j].key
    ensures forall i :: 0 <= i < |CATEGORIES_DATA| ==>
              CATEGORIES_DATA[i].name == CATEGORIES_DATA[i].key &&
              |CATEGORIES_DATA[i].subcategories| > 0 &&
              forall k :: 0 <= k < |CATEGORIES_DATA[i].subcategories| ==> CATEGORIES_DATA[i].subcategories[k] != ""
  {
  }

  /** A known category offers its own subcategories and starts at the first
      of them; an unknown one offers none and leaves the subcategory "". */
  lemma FirstSubcategoryFacts(c: string)
    ensures (exists i :: 0 <= i < |CATEGORIES_DATA| && CATEGORIES_DATA[i].key == c) ==>
              |SubcategoriesOf(c)| > 0 && FirstSubcategory(c) == SubcategoriesOf(c)[0] && FirstSubcategory(c) != ""
    ensures (forall i :: 0 <= i < |CATEGORIES_DATA| ==> CATEGORIES_DATA[i].key != c) ==>
              SubcategoriesOf(c) == [] && FirstSubcategory(c) == ""
  {
    CategoriesDataFacts();
  }

  /** The initial choice is consistent: Groceries is the first Food subcategory. */
  lemma DefaultsConsistent()
    ensures FirstSubcategory(DEFAULT_CATEGORY) == DEFAULT_SUBCATEGORY
    ensures DEFAULT_SUBCATEGORY in SubcategoriesOf(DEFAULT_CATEGORY)
  {
    assert CATEGORIES_DATA[0].key == DEFAULT_CATEGORY;
  }

  // ---------------------------------------------------------------------
  // Number.parseFloat

  /** What `Number.parseFloat` yields, as far as a comparison with 0 can
      tell: `NaN`, an infinity, or the decimal `digits / 10^scale` with a sign. */
  datatype Float = NaN | Infinity(negative: bool) | Decimal(negative: bool, digits: nat, scale: nat)

  /** `x <= 0`; false for `NaN`. */
  predicate AtMostZero(x: Float)
  {
    match x
    case NaN => false
    case Infinity(negative) => negative
    case Decimal(negative, digits, _) => negative || digits == 0
  }

  /** White space that `parseFloat` skips (the ASCII ones, no-break space
      and the byte-order mark). */
  predicate IsSpace(c: char)
  {
    c == ' ' || c == '\t' || c == '\n' || c == '\r' || c == '\U{000B}' || c == '\U{000C}' ||
    c == '\U{00A0}' || c == '\U{FEFF}'
  }

  function TrimStart(s: string): (r: string)
    ensures |r| <= |s| && r == s[|s| - |r|..]
    ensures r == [] || !IsSpace(r[0])
  {
    if s != [] && IsSpace(s[0]) then TrimStart(s[1..]) else s
  }

  /** The longest prefix of digits. */
  function LeadingDigits(s: string): (r: string)
    ensures |r| <= |s| && r == s[..|r|] && AllDigits(r)
    ensures |r| == |s| || !IsDigit(s[|r|])
  {
    if s != [] && IsDigit(s[0]) then [s[0]] + LeadingDigits(s[1..]) else []
  }

  /** `Number.parseFloat(s)`: leading white space is skipped, then an
      optional sign, then `Infinity` or the longest decimal prefix
      `digits[.digits]`; without a digit the result is `NaN`. */
  function ParseFloat(s: string): Float
  {
    ParseSigned(TrimStart(s))
  }

  function ParseSigned(t: string): Float
  {
    if |t| > 0 && t[0] == '-' then ParseUnsigned(true, t[1..])
    else if |t| > 0 && t[0] == '+' then ParseUnsigned(false, t[1..])
    else ParseUnsigned(false, t)
  }

  function ParseUnsigned(negative: bool, u: string): Float
  {
    if |u| >= 8 && u[..8] == "Infinity" then Infinity(negative)
    else
      var whole := LeadingDigits(u);
      var rest := u[|whole|..];
      var fraction := if |rest| > 0 && rest[0] == '.' then LeadingDigits(rest[1..]) else "";
      if whole == "" && fraction == "" then NaN
      else Decimal(negative, DigitsValue(whole + fraction), |fraction|)
  }

  lemma {:induction false} LeadingDigitsAll(s: string)
    requires AllDigits(s)
    ensures LeadingDigits(s) == s
  {
    if s != [] {
      LeadingDigitsAll(s[1..]);
      assert s == [s[0]] + s[1..];
    }
  }

  /** Digits alone, after the sign, read as their value. */
  lemma UnsignedDigits(negative: bool, s: string)
    requires s != "" && AllDigits(s)
    ensures ParseUnsigned(negative, s) == Decimal(negative, DigitsValue(s), 0)
  {
    LeadingDigitsAll(s);
    assert IsDigit(s[0]);
    if |s| >= 8 {
      assert s[..8][0] == s[0] != "Infinity"[0];
    }
    assert s[|s|..] == "";
    assert s + "" == s;
  }

  /** A string of digits reads as its value. */
  lemma ParseFloatDigits(s: string)
    requires s != "" && AllDigits(s)
    ensures ParseFloat(s) == Decimal(false, DigitsValue(s), 0)
    ensures AtMostZero(ParseFloat(s)) <==> DigitsValue(s) == 0
  {
    assert IsDigit(s[0]);
    assert TrimStart(s) == s;
    UnsignedDigits(false, s);
  }

  /** A leading minus sign before digits gives a value of at most 0. */
  lemma ParseFloatNegative(s: string)
    requires s != "" && AllDigits(s)
    ensures ParseFloat("-" + s) == Decimal(true, DigitsValue(s), 0) && AtMostZero(ParseFloat("-" + s))
  {
    var t := "-" + s;
    assert TrimStart(t) == t;
    assert t[1..] == s;
    UnsignedDigits(true, s);
  }

  /** A text with no digit at its start parses to `NaN`, which is not `<= 0`. */
  lemma ParseFloatNoDigits(s: string)
    requires s != "" && !IsSpace(s[0]) && !IsDigit(s[0]) && s[0] != '-' && s[0] != '+' && s[0] != '.' && s[0] != 'I'
    ensures ParseFloat(s) == NaN && !AtMostZero(ParseFloat(s))
  {
    assert LeadingDigits(s) == "";
    assert s[0..] == s;
  }

  // ---------------------------------------------------------------------
  // validateForm

  /** Whether `validateForm` records an error for field `f`. */
  predicate Fails(d: FormData, f: Field)
  {
    match f
    case Amount => d.amount == "" || AtMostZero(ParseFloat(d.amount))
    case Category => d.category == ""
    case Subcategory => d.subcategory == ""
    case Date => d.date == ""
    case Description => false
  }

  function Message(f: Field): string
  {
    match f
    case Amount => AMOUNT_ERROR
    case Category => CATEGORY_ERROR
    case Subcategory => SUBCATEGORY_ERROR
    case Date => DATE_ERROR
    case Description => ""
  }

  /** One `if` of `validateForm`: the field's message when its check fails. */
  function Record(e: map<Field, string>, f: Field, fails: bool): map<Field, string>
  {
    if fails then e[f := Message(f)] else e
  }

  /** The four `if`s of `validateForm`, given the outcome of each check. */
  function Chain(amount: bool, category: bool, subcategory: bool, date: bool): map<Field, string>
  {
    Record(Record(Record(Record(map[], Amount, amount), Category, category), Subcategory, subcategory), Date, date)
  }

  /** The error map `validateForm` builds, field by field. */
  function ErrorsOf(d: FormData): map<Field, string>
  {
    Chain(Fails(d, Amount), Fails(d, Category), Fails(d, Subcategory), Fails(d, Date))
  }

  /** No field fails. */
  predicate NoErrors(d: FormData)
  {
    !Fails(d, Amount) && !Fails(d, Category) && !Fails(d, Subcategory) && !Fails(d, Date)
  }

  /** The chain holds a field exactly when its check failed, always with the
      field's own message. */
  lemma ChainFacts(amount: bool, category: bool, subcategory: bool, date: bool)
    ensures var e := Chain(amount, category, subcategory, date);
            (Amount in e <==> amount) && (Category in e <==> category) &&
            (Subcategory in e <==> subcategory) && (Date in e <==> date) && Description !in e &&
            (forall f :: f in e ==> e[f] == Message(f) && f != Description) &&
            (|e| == 0 <==> !amount && !category && !subcategory && !date)
  {
    var e := Chain(amount, category, subcategory, date);
    if !amount && !category && !subcategory && !date {
      assert e == map[];
    }
  }

  /** Each failing field has exactly its own message, the description never
      fails, and the form is valid exactly when the map is empty. */
  lemma ErrorsOfFacts(d: FormData)
    ensures forall f :: f in ErrorsOf(d) <==> Fails(d, f)
    ensures forall f :: f in ErrorsOf(d) ==> ErrorsOf(d)[f] == Message(f) && ErrorsOf(d)[f] != ""
    ensures Description !in ErrorsOf(d)
    ensures |ErrorsOf(d)| == 0 <==> NoErrors(d)
  {
    ErrorsOfKeys(d);
    ErrorsOfMessages(d);
    ErrorsOfEmpty(d);
  }

  lemma ErrorsOfKeys(d: FormData)
    ensures forall f :: f in ErrorsOf(d) <==> Fails(d, f)
  {
    var a, c, s, t := Fails(d, Amount), Fails(d, Category), Fails(d, Subcategory), Fails(d, Date);
    ChainFacts(a, c, s, t);
    forall f ensures f in Chain(a, c, s, t) <==> Fails(d, f) {
      match f
      case Amount =>
      case Category =>
      case Subcategory =>
      case Date =>
      case Description =>
    }
  }

  lemma ErrorsOfMessages(d: FormData)
    ensures forall f :: f in ErrorsOf(d) ==> ErrorsOf(d)[f] == Message(f) && ErrorsOf(d)[f] != ""
  {
    var a, c, s, t := Fails(d, Amount), Fails(d, Category), Fails(d, Subcategory), Fails(d, Date);
    ChainFacts(a, c, s, t);
    var e := Chain(a, c, s, t);
    forall f | f in e ensures e[f] == Message(f) && Message(f) != "" {
      assert f != Description;
    }
  }

  lemma ErrorsOfEmpty(d: FormData)
    ensures |ErrorsOf(d)| == 0 <==> NoErrors(d)
  {
    ChainFacts(Fails(d, Amount), Fails(d, Category), Fails(d, Subcategory), Fails(d, Date));
  }

  /** An amount is rejected exactly when it is empty or reads as a number of
      at most 0; digits other than all zeros pass. */
  lemma AmountRule(d: FormData)
    ensures Amount in ErrorsOf(d) <==> d.amount == "" || AtMostZero(ParseFloat(d.amount))
    ensures d.amount != "" && AllDigits(d.amount) ==> (Amount in ErrorsOf(d) <==> DigitsValue(d.amount) == 0)
  {
    ErrorsOfFacts(d);
    if d.amount != "" && AllDigits(d.amount) {
      ParseFloatDigits(d.amount);
    }
  }

  // ---------------------------------------------------------------------
  // Field updates

  function FieldOf(d: FormData, f: Field): string
  {
    match f
    case Amount => d.amount
    case Date => d.date
    case Category => d.category
    case Subcategory => d.subcategory
    case Description => d.description
  }

  /** `{...prev, [name]: value}`. */
  function SetField(d: FormData, name: Field, value: string): (r: FormData)
    ensures FieldOf(r, name) == value
    ensures forall f :: f != name ==> FieldOf(r, f) == FieldOf(d, f)
  {
    match name
    case Amount => d.(amount := value)
    case Date => d.(date := value)
    case Category => d.(category := value)
    case Subcategory => d.(subcategory := value)
    case Description => d.(description := value)
  }

  /** `{...prev, [name]: undefined}` when `prev[name]` is set: that field's
      error goes, every other stays as it was. */
  function ClearError(e: map<Field, string>, name: Field): (r: map<Field, string>)
    ensures name !in r
    ensures forall f :: f != name ==> (f in r <==> f in e) && (f in r ==> r[f] == e[f])
  {
    e - {name}
  }

  /** The category select's change: the new category with its first subcategory. */
  function WithCategory(d: FormData, c: string): (r: FormData)
    ensures r.category == c && r.subcategory == FirstSubcategory(c)
    ensures r.amount == d.amount && r.date == d.date && r.description == d.description
  {
    d.(category := c, subcategory := FirstSubcategory(c))
  }

  /** After a category change the subcategory is one the new category
      offers, or "" for a category outside the table. */
  lemma CategoryChangeKeepsChoiceValid(d: FormData, c: string)
    ensures var r := WithCategory(d, c);
            r.subcategory in SubcategoriesOf(c) || (r.subcategory == "" && SubcategoriesOf(c) == [])
  {
    FirstSubcategoryFacts(c);
  }

  /** The form right after mounting and after a successful submit. */
  function DefaultForm(today: string): (d: FormData)
    ensures d.category == DEFAULT_CATEGORY && d.subcategory == FirstSubcategory(DEFAULT_CATEGORY)
    ensures d.amount == "" && d.description == "" && d.date == today
  {
    DefaultsConsistent();
    FormData("", today, DEFAULT_CATEGORY, DEFAULT_SUBCATEGORY, "")
  }

  /** A fresh form fails only on the amount (and on the date when `today` is empty). */
  lemma DefaultFormErrors(today: string)
    ensures var e := ErrorsOf(DefaultForm(today));
            Amount in e && Category !in e && Subcategory !in e && (Date in e <==> today == "")
  {
    ErrorsOfFacts(DefaultForm(today));
  }

  // ---------------------------------------------------------------------
  // The page's state

  class AddExpensePage {
    var formData: FormData
    var errors: map<Field, string>

    constructor (today: string)
      ensures formData == DefaultForm(today) && errors == map[]
    {
      formData := DefaultForm(today);
      errors := map[];
    }

    /** `validateForm`: builds the error map field by field, replaces the
        page's map with it, and reports whether it is empty. */
    method ValidateForm() returns (ok: bool)
      modifies this
      ensures formData == old(formData)
      ensures errors == ErrorsOf(old(formData))
      ensures ok <==> NoErrors(old(formData))
    {
      var d := formData;
      var newErrors: map<Field, string> := map[];
      if d.amount == "" || AtMostZero(ParseFloat(d.amount)) {
        newErrors := newErrors[Amount := AMOUNT_ERROR];
      }
      if d.category == "" {
        newErrors := newErrors[Category := CATEGORY_ERROR];
      }
      if d.subcategory == "" {
        newErrors := newErrors[Subcategory := SUBCATEGORY_ERROR];
      }
      if d.date == "" {
        newErrors := newErrors[Date := DATE_ERROR];
      }
      errors := newErrors;
      ErrorsOfFacts(d);
      ok := |newErrors| == 0;
    }

    /** `handleInputChange`: sets the named field and, when that field shows
        an error, drops it. */
    method HandleInputChange(name: Field, value: string)
      modifies this
      ensures formData == SetField(old(formData), name, value)
      ensures errors == if name in old(errors) && old(errors)[name] != "" then ClearError(old(errors), name) else old(errors)
    {
      formData := SetField(formData, name, value);
      if name in errors && errors[name] != "" {
        errors := ClearError(errors, name);
      }
    }

    /** `handleCategoryChange` and the category select's `onValueChange`. */
    method HandleCategoryChange(value: string)
      modifies this
      ensures formData == WithCategory(old(formData), value)
      ensures errors == old(errors)
    {
      formData := WithCategory(formData, value);
    }

    /** The subcategory select's `onValueChange`: sets the subcategory only. */
    method HandleSubcategoryChange(value: string)
      modifies this
      ensures formData == SetField(old(formData), Subcategory, value)
      ensures errors == old(errors)
    {
      formData := formData.(subcategory := value);
    }

    /** `handleSubmit`: an invalid form keeps its data and shows the errors;
        a valid one is reset to the defaults with no errors. */
    method HandleSubmit(today: string) returns (submitted: bool)
      modifies this
      ensures submitted <==> NoErrors(old(formData))
      ensures !submitted ==> formData == old(formData) && errors == ErrorsOf(old(formData))
      ensures submitted ==> formData == DefaultForm(today) && errors == map[]
    {
      submitted := ValidateForm();
      if !submitted {
        return;
      }
      formData := DefaultForm(today);
      errors := map[];
    }
  }
}
