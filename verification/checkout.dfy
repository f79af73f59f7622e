/** The checkout page: the order total, the empty-cart guard, the form's
    field edits and the validator that builds the error map. */
module Checkout {
  import opened Optional
  import opened Text
  import Cart
  import CartViews

  /** The e-mail test `\S+@\S+\.\S+`, unanchored: some stretch of the text
      without white space, from `a` up to `e`, holds an `@` at `i` and a `.`
      at `j`, with at least one character before the `@`, between the two,
      and after the `.`. */
  ghost predicate MatchesAt(s: string, a: int, i: int, j: int, e: int) {
    && 0 <= a < i && i + 1 < j && j + 1 < e <= |s|
    && s[i] == '@' && s[j] == '.'
    && forall k :: a <= k < e ==> !IsSpace(s[k])
  }

  ghost predicate EmailRegex(s: string) {
    exists a, i, j, e :: MatchesAt(s, a, i, j, e)
  }

  /** The shortest match around an `@` at `i` and a `.` at `j`. */
  ghost predicate EmailAt(s: string, i: int, j: int) {
    && 1 <= i && i + 2 <= j && j + 1 < |s|
    && s[i] == '@' && s[j] == '.'
    && !IsSpace(s[i - 1]) && !IsSpace(s[j + 1])
    && forall m :: i < m < j ==> !IsSpace(s[m])
  }

  /** A `.` at `j`, no earlier than `min`, reached from `k` through
      characters that are not white space, and followed by one that is not. */
  ghost predicate DotAt(s: string, k: int, min: int, j: int) {
    && 0 <= k <= j && min <= j && j + 1 < |s|
    && s[j] == '.' && !IsSpace(s[j + 1])
    && forall m :: k <= m < j ==> !IsSpace(s[m])
  }

  /** Scan from `k` through characters that are not white space for a `.`
      that is at or after `min` and followed by a character that is not. */
  function DotFrom(s: string, k: nat, min: int): bool
    decreases |s| - k
  {
    if k >= |s| || IsSpace(s[k]) then false
    else (s[k] == '.' && k >= min && k + 1 < |s| && !IsSpace(s[k + 1])) || DotFrom(s, k + 1, min)
  }

  /** Scan from `i` for an `@` that starts a match. */
  function AtFrom(s: string, i: nat): bool
    decreases |s| - i
  {
    if i >= |s| then false
    else (s[i] == '@' && 1 <= i && !IsSpace(s[i - 1]) && DotFrom(s, i + 1, i + 2)) || AtFrom(s, i + 1)
  }

  lemma {:induction false} DotFromIff(s: string, k: nat, min: int)
    ensures DotFrom(s, k, min) <==> exists j :: DotAt(s, k, min, j)
    decreases |s| - k
  {
    if k >= |s| {
    } else if IsSpace(s[k]) {
      forall j
        ensures !DotAt(s, k, min, j)
      {
        if j > k {
          assert IsSpace(s[k]);
        }
      }
    } else {
      DotFromIff(s, k + 1, min);
      if DotFrom(s, k, min) {
        if s[k] == '.' && k >= min && k + 1 < |s| && !IsSpace(s[k + 1]) {
          assert DotAt(s, k, min, k);
        } else {
          var j :| DotAt(s, k + 1, min, j);
          assert DotAt(s, k, min, j);
        }
      } else {
        forall j
          ensures !DotAt(s, k, min, j)
        {
          if j > k {
            assert !DotAt(s, k + 1, min, j);
          }
        }
      }
    }
  }

  lemma {:induction false} AtFromIff(s: string, i: nat)
    ensures AtFrom(s, i) <==> exists i', j :: i <= i' && EmailAt(s, i', j)
    decreases |s| - i
  {
    if i < |s| {
      AtFromIff(s, i + 1);
      DotFromIff(s, i + 1, i + 2);
      if s[i] == '@' && 1 <= i && !IsSpace(s[i - 1]) {
        forall j
          ensures DotAt(s, i + 1, i + 2, j) <==> EmailAt(s, i, j)
        {
        }
      }
      if AtFrom(s, i) {
        if !AtFrom(s, i + 1) {
          var j :| DotAt(s, i + 1, i + 2, j);
          assert EmailAt(s, i, j);
        }
      } else {
        forall i', j | i <= i'
          ensures !EmailAt(s, i', j)
        {
          if i' == i && s[i] == '@' && 1 <= i && !IsSpace(s[i - 1]) {
            assert !DotAt(s, i + 1, i + 2, j);
          }
        }
      }
    }
  }

  /** A match anywhere shrinks to the shortest match around its `@` and `.`,
      and the shortest match is a match. */
  lemma RegexIsEmailAt(s: string)
    ensures EmailRegex(s) <==> exists i, j :: EmailAt(s, i, j)
  {
    if EmailRegex(s) {
      var a, i, j, e :| MatchesAt(s, a, i, j, e);
      assert !IsSpace(s[i - 1]) && !IsSpace(s[j + 1]);
      assert EmailAt(s, i, j);
    }
    if exists i, j :: EmailAt(s, i, j) {
      var i, j :| EmailAt(s, i, j);
      assert !IsSpace('@') && !IsSpace('.');
      assert MatchesAt(s, i - 1, i, j, j + 2);
    }
  }

  /** The validator's e-mail test, computed by scanning. */
  function EmailLooksValid(s: string): (b: bool)
    ensures b <==> EmailRegex(s)
  {
    AtFromIff(s, 0);
    RegexIsEmailAt(s);
    AtFrom(s, 0)
  }

  /** The form's fields, each named in the page by its camel-case key
      (`email`, `firstName`, ..., `billingZipCode`). */
  datatype FieldName =
    | Email | FirstName | LastName | Phone | Address | Apartment | City | State | ZipCode
    | Country | PaymentMethod | CardNumber | CardName | CardExpiry | CardCVC
    | BillingAddress | BillingCity | BillingState | BillingZipCode

  /** The form's text values; a field never set reads as empty. */
  type Form = map<FieldName, string>

  type Errors = map<FieldName, string>

  function Field(form: Form, name: FieldName): string {
    if name in form then form[name] else ""
  }

  /** The form as the page first shows it. */
  const InitialForm: Form := map[
    Email := "", FirstName := "", LastName := "", Phone := "",
    Address := "", Apartment := "", City := "", State := "",
    ZipCode := "", Country := "United States", PaymentMethod := "card",
    CardNumber := "", CardName := "", CardExpiry := "", CardCVC := "",
    BillingAddress := "", BillingCity := "", BillingState := "",
    BillingZipCode := ""]

  /** The fields that must not be empty, in the order they are checked. */
  predicate IsRequired(f: FieldName) {
    f.FirstName? || f.LastName? || f.Phone? || f.Address? || f.City? || f.State? || f.ZipCode?
  }

  /** The fields that must not be empty when paying by card. */
  predicate IsCardField(f: FieldName) {
    f.CardNumber? || f.CardName? || f.CardExpiry? || f.CardCVC?
  }

  /** The message for an empty required or card field. */
  function MissingMessage(f: FieldName): string {
    match f
    case FirstName => "First name is required"
    case LastName => "Last name is required"
    case Phone => "Phone is required"
    case Address => "Address is required"
    case City => "City is required"
    case State => "State is required"
    case ZipCode => "ZIP code is required"
    case CardNumber => "Card number is required"
    case CardName => "Cardholder name is required"
    case CardExpiry => "Expiry date is required"
    case CardCVC => "CVC is required"
    case _ => ""
  }

  function EmailError(form: Form): Option<string> {
    var email := Field(form, Email);
    if email == "" then Some("Email is required")
    else if !EmailLooksValid(email) then Some("Email is invalid")
    else None
  }

  predicate PaysByCard(form: Form) {
    Field(form, PaymentMethod) == "card"
  }

  /** The emptiness check the validator makes of a field other than the
      e-mail, if any. */
  function MissingError(form: Form, f: FieldName): Option<string> {
    if (IsRequired(f) || (IsCardField(f) && PaysByCard(form))) && Field(form, f) == "" then Some(MissingMessage(f))
    else None
  }

  /** The validator's check for one field, if it checks that field. */
  function ErrorFor(form: Form, f: FieldName): Option<string> {
    if f == Email then EmailError(form) else MissingError(form, f)
  }

  /** The fields the validator looks at, in the order it looks at them. */
  const CheckOrder: seq<FieldName> := [
    Email, FirstName, LastName, Phone, Address, City, State, ZipCode,
    CardNumber, CardName, CardExpiry, CardCVC]

  lemma CheckOrderCovers()
    ensures forall f :: f in CheckOrder <==> f == Email || IsRequired(f) || IsCardField(f)
  {
  }

  /** The error map from checking the fields `fs`. */
  function Collect(form: Form, fs: seq<FieldName>): Errors {
    if fs == [] then map[]
    else
      var rest := Collect(form, fs[1..]);
      match ErrorFor(form, fs[0])
      case None => rest
      case Some(m) => rest[fs[0] := m]
  }

  /** A field has an entry exactly when it is checked and fails its check,
      and the entry is that check's message. */
  lemma {:induction false} CollectErrors(form: Form, fs: seq<FieldName>)
    ensures forall f :: f in Collect(form, fs) <==> f in fs && ErrorFor(form, f).Some?
    ensures forall f :: f in Collect(form, fs) ==> Collect(form, fs)[f] == ErrorFor(form, f).value
  {
    if fs != [] {
      CollectErrors(form, fs[1..]);
      assert forall f :: f in fs <==> f == fs[0] || f in fs[1..];
    }
  }

  /** Whether a field is in error, stated against the e-mail pattern
      itself: an empty or ill-shaped e-mail, an empty required field, or an
      empty card field when paying by card. */
  ghost predicate Fails(form: Form, f: FieldName) {
    || (f == Email && (Field(form, Email) == "" || !EmailRegex(Field(form, Email))))
    || (IsRequired(f) && Field(form, f) == "")
    || (IsCardField(f) && PaysByCard(form) && Field(form, f) == "")
  }

  /** The message a failing field shows; the e-mail's says which of its two
      checks failed. */
  function Message(form: Form, f: FieldName): string {
    if f != Email then MissingMessage(f)
    else if Field(form, Email) == "" then "Email is required"
    else "Email is invalid"
  }

  /** `validateForm`'s error map: exactly the failing fields, each with its
      message. */
  function ValidateForm(form: Form): (errs: Errors)
    ensures forall f :: f in errs <==> Fails(form, f)
    ensures forall f :: f in errs ==> errs[f] == Message(form, f)
  {
    CollectErrors(form, CheckOrder);
    CheckOrderCovers();
    Collect(form, CheckOrder)
  }

  /** Only the e-mail, the required fields and the card fields can be in
      error; apartment, country, the payment choice and the billing fields
      never are. */
  lemma UncheckedFields(form: Form)
    ensures forall f :: f in ValidateForm(form) ==> f == Email || IsRequired(f) || IsCardField(f)
  {
  }

  /** The e-mail gets at most one of its two messages: 'required' exactly
      when it is empty, 'invalid' exactly when it is filled in but has no
      `x@y.z` stretch. */
  lemma EmailMessages(form: Form)
    ensures var errs := ValidateForm(form);
      && (Email in errs && errs[Email] == "Email is required" <==> Field(form, Email) == "")
      && (Email in errs && errs[Email] == "Email is invalid" <==> Field(form, Email) != "" && !EmailRegex(Field(form, Email)))
  {
  }

  /** Each required field is in error exactly when it is empty; each card
      field exactly when paying by card and it is empty. */
  lemma RequiredAndCardFields(form: Form)
    ensures forall f :: IsRequired(f) ==> (f in ValidateForm(form) <==> Field(form, f) == "")
    ensures forall f :: IsCardField(f) ==> (f in ValidateForm(form) <==> PaysByCard(form) && Field(form, f) == "")
    ensures !PaysByCard(form) ==> forall f :: IsCardField(f) ==> f !in ValidateForm(form)
  {
  }

  /** Every field the validator checks is filled in, and the e-mail has the
      expected shape. */
  ghost predicate Complete(form: Form) {
    && Field(form, Email) != "" && EmailRegex(Field(form, Email))
    && (forall f :: IsRequired(f) ==> Field(form, f) != "")
    && (PaysByCard(form) ==> forall f :: IsCardField(f) ==> Field(form, f) != "")
  }

  /** `validateForm()`'s answer: no key in the error map. */
  function IsValid(form: Form): bool {
    |ValidateForm(form)| == 0
  }

  /** The form passes exactly when it is complete. */
  lemma ValidIffComplete(form: Form)
    ensures IsValid(form) <==> Complete(form)
  {
    var errs := ValidateForm(form);
    if |errs| == 0 {
      assert errs == map[];
      assert !Fails(form, Email);
      forall f | IsRequired(f) || (PaysByCard(form) && IsCardField(f))
        ensures Field(form, f) != ""
      {
        assert !Fails(form, f);
      }
    } else {
      var k :| k in errs;
      assert Fails(form, k);
      assert !Complete(form) by {
        if k != Email && IsRequired(k) {
          assert Field(form, k) == "";
        }
      }
    }
  }

  /** What submitting does: show the errors, or go on to the success page. */
  datatype Submission = ShowErrors(errors: Errors) | Proceed(navigateTo: string)

  function HandleSubmit(form: Form): (r: Submission)
    ensures r.Proceed? <==> IsValid(form)
    ensures r.Proceed? ==> r.navigateTo == "/checkout/success"
    ensures r.ShowErrors? ==> r.errors == ValidateForm(form) && |r.errors| > 0
  {
    if IsValid(form) then Proceed("/checkout/success") else ShowErrors(ValidateForm(form))
  }

  /** An error is shown when its message is not empty. */
  predicate HasError(errs: Errors, name: FieldName) {
    name in errs && errs[name] != ""
  }

  /** `handleInputChange`: store the value and blank out that field's error. */
  function HandleInputChange(form: Form, errs: Errors, name: FieldName, value: string): (r: (Form, Errors))
    ensures Field(r.0, name) == value
    ensures forall k :: k != name ==> Field(r.0, k) == Field(form, k)
    ensures !HasError(r.1, name)
    ensures r.1.Keys == errs.Keys
    ensures forall k :: k in errs && k != name ==> r.1[k] == errs[k]
  {
    (form[name := value], if HasError(errs, name) then errs[name := ""] else errs)
  }

  /** The page before the form: a redirect notice while not mounted or while
      the cart is empty. */
  datatype Screen = Redirecting | CheckoutForm

  function Render(mounted: bool, cart: Cart.Lines): (r: Screen)
    ensures r == CheckoutForm <==> mounted && cart != []
  {
    if !mounted || |cart| == 0 then Redirecting else CheckoutForm
  }

  /** The mount effect sends an empty cart back to the cart page. */
  function RedirectEffect(cart: Cart.Lines): (r: Option<string>)
    ensures r.Some? <==> cart == []
    ensures r.Some? ==> r.value == "/cart"
  {
    if |cart| == 0 then Some("/cart") else None
  }

  /** The order total at checkout: subtotal, shipping and 8% tax. */
  function CheckoutTotal(subtotal: real): (r: real)
    ensures subtotal > CartViews.FreeShippingOver ==> r == subtotal * (1.0 + CartViews.TaxRate)
    ensures subtotal <= CartViews.FreeShippingOver ==> r == subtotal * (1.0 + CartViews.TaxRate) + CartViews.ShippingFee
  {
    var shipping := CartViews.Shipping(subtotal);
    var tax := subtotal * 0.08;
    subtotal + shipping + tax
  }

  /** Checkout charges what the cart page's summary shows. */
  lemma CheckoutMatchesCartPage(cart: Cart.Lines)
    requires cart != []
    ensures CheckoutTotal(Cart.TotalPrice(cart)) == CartViews.CartPageView(cart).total
  {
  }
}
