/** The checkout page's state: the customer form, a parallel record of
    per-field error flags, and whether an order has just been placed.
    Validation, field edits, order placement and its delayed completion
    are pure transitions over that state. */
module CheckoutPage {
  import opened Shop
  import opened Text

  datatype Field = Name | Phone | Email

  datatype FormData = FormData(name: string, phone: string, email: string)

  datatype FormErrors = FormErrors(name: bool, phone: bool, email: bool)

  datatype State = State(form: FormData, errors: FormErrors, ordered: bool)

  /** An empty form, no flags, no order. */
  const Initial: State :=
    State(FormData("", "", ""), FormErrors(false, false, false), false)

  function FieldValue(form: FormData, f: Field): string {
    match f
    case Name => form.name
    case Phone => form.phone
    case Email => form.email
  }

  function Flag(errors: FormErrors, f: Field): bool {
    match f
    case Name => errors.name
    case Phone => errors.phone
    case Email => errors.email
  }

  predicate NoErrors(errors: FormErrors) {
    !errors.name && !errors.phone && !errors.email
  }

  /** What the page accepts, stated without trimming: name and phone hold
      some visible character and the email contains an "@". */
  predicate Acceptable(form: FormData) {
    && !AllWhitespace(form.name)
    && !AllWhitespace(form.phone)
    && '@' in form.email
  }

  /** The flags the validator computes: a field is flagged when its trimmed
      value is empty; the email also when the untrimmed value has no "@". */
  function FieldErrors(form: FormData): (e: FormErrors)
    ensures e.name <==> AllWhitespace(form.name)
    ensures e.phone <==> AllWhitespace(form.phone)
    ensures e.email <==> AllWhitespace(form.email) || '@' !in form.email
  {
    FormErrors(
      Trim(form.name) == "",
      Trim(form.phone) == "",
      Trim(form.email) == "" || '@' !in form.email)
  }

  /** The trim test on the email is subsumed by the "@" test: "@" is not
      white space, so the email is flagged exactly when it lacks an "@". */
  lemma EmailFlagIffNoAt(form: FormData)
    ensures FieldErrors(form).email <==> '@' !in form.email
  {
  }

  /** validateForm: stores the computed flags and reports whether none is
      set. Nothing but the error record changes. */
  function ValidateForm(s: State): (r: (State, bool))
    ensures r.0.form == s.form && r.0.ordered == s.ordered
    ensures r.0.errors.name <==> AllWhitespace(s.form.name)
    ensures r.0.errors.phone <==> AllWhitespace(s.form.phone)
    ensures r.0.errors.email <==> '@' !in s.form.email
    ensures r.1 <==> NoErrors(r.0.errors)
    ensures r.1 <==> Acceptable(s.form)
  {
    EmailFlagIffNoAt(s.form);
    var errors := FieldErrors(s.form);
    (s.(errors := errors), !(errors.name || errors.phone || errors.email))
  }

  /** handleInputChange: the edited field takes the typed value; its flag,
      if set, is cleared. */
  function HandleInputChange(s: State, f: Field, value: string): (r: State)
    ensures FieldValue(r.form, f) == value
    ensures forall g :: g != f ==> FieldValue(r.form, g) == FieldValue(s.form, g)
    ensures !Flag(r.errors, f)
    ensures forall g :: g != f ==> Flag(r.errors, g) == Flag(s.errors, g)
    ensures !Flag(s.errors, f) ==> r.errors == s.errors
    ensures r.ordered == s.ordered
  {
    var form := match f
      case Name => s.form.(name := value)
      case Phone => s.form.(phone := value)
      case Email => s.form.(email := value);
    if Flag(s.errors, f) then
      var errors := match f
        case Name => s.errors.(name := false)
        case Phone => s.errors.(phone := false)
        case Email => s.errors.(email := false);
      s.(form := form, errors := errors)
    else
      s.(form := form)
  }

  /** An edit never raises a flag; it can only lower the edited one. */
  lemma EditNeverRaisesFlags(s: State, f: Field, value: string, g: Field)
    ensures Flag(HandleInputChange(s, f, value).errors, g) ==> Flag(s.errors, g)
  {
  }

  /** handlePlaceOrder: validate, and enter the ordered state only when
      validation succeeds. */
  function HandlePlaceOrder(s: State): (r: State)
    ensures r.form == s.form
    ensures r.errors.name <==> AllWhitespace(s.form.name)
    ensures r.errors.phone <==> AllWhitespace(s.form.phone)
    ensures r.errors.email <==> '@' !in s.form.email
    ensures Acceptable(s.form) ==> r.ordered && NoErrors(r.errors)
    ensures !Acceptable(s.form) ==> r.ordered == s.ordered && !NoErrors(r.errors)
  {
    var (validated, ok) := ValidateForm(s);
    if ok then validated.(ordered := true) else validated
  }

  /** The delayed completion of an order: the cart is cleared, the ordered
      state is left and the page navigates home. The form is kept. */
  function FinishOrder(s: State): (r: (State, seq<Effect>))
    ensures r.0.form == s.form && r.0.errors == s.errors && !r.0.ordered
    ensures multiset(r.1) == multiset{ClearCart, Navigate(HomePath)}
    ensures |r.1| > 0 && r.1[|r.1| - 1] == Navigate(HomePath)
  {
    (s.(ordered := false), [ClearCart, Navigate(HomePath)])
  }

  /** What the customer can do on the page. While the confirmation is
      shown neither the inputs nor the button are on screen, so edits and
      clicks do nothing; the completion timer only exists after an order
      was placed. */
  datatype Action = Edit(field: Field, value: string) | PlaceOrder | OrderTimerFired

  /** The page's invariant: whenever an order is being confirmed, the form
      passed validation and no field is flagged. */
  predicate Consistent(s: State) {
    s.ordered ==> Acceptable(s.form) && NoErrors(s.errors)
  }

  function Dispatch(s: State, a: Action): (r: (State, seq<Effect>))
    ensures Consistent(s) ==> Consistent(r.0)
    ensures !s.ordered && a.PlaceOrder? ==> (r.0.ordered <==> Acceptable(s.form))
    ensures r.1 != [] ==> s.ordered && a.OrderTimerFired?
    ensures s.ordered && a.OrderTimerFired? ==> !r.0.ordered && r.1 == [ClearCart, Navigate(HomePath)]
    ensures s.ordered && !a.OrderTimerFired? ==> r == (s, [])
    ensures !s.ordered && a.Edit? ==> FieldValue(r.0.form, a.field) == a.value && !Flag(r.0.errors, a.field)
  {
    match a
    case Edit(f, v) => if s.ordered then (s, []) else (HandleInputChange(s, f, v), [])
    case PlaceOrder => if s.ordered then (s, []) else (HandlePlaceOrder(s), [])
    case OrderTimerFired => if s.ordered then FinishOrder(s) else (s, [])
  }

  /** The state after a sequence of actions, starting from `s`. */
  function Run(s: State, actions: seq<Action>): State
    decreases |actions|
  {
    if |actions| == 0 then s
    else Run(Dispatch(s, actions[0]).0, actions[1..])
  }

  /** Every state reachable from the initial one is consistent: the ordered
      state is entered only through a successful validation. */
  lemma {:induction false} RunKeepsConsistent(s: State, actions: seq<Action>)
    requires Consistent(s)
    ensures Consistent(Run(s, actions))
    decreases |actions|
  {
    if |actions| > 0 {
      var next := Dispatch(s, actions[0]).0;
      assert Consistent(next);
      RunKeepsConsistent(next, actions[1..]);
    }
  }

  lemma ReachableIsConsistent(actions: seq<Action>)
    ensures Consistent(Run(Initial, actions))
  {
    RunKeepsConsistent(Initial, actions);
  }

  /** Edits alone never flag a field: from an unflagged state, any amount
      of typing keeps every flag down. */
  lemma {:induction false} EditsKeepNoErrors(s: State, actions: seq<Action>)
    requires NoErrors(s.errors)
    requires forall i :: 0 <= i < |actions| ==> actions[i].Edit?
    ensures NoErrors(Run(s, actions).errors)
    decreases |actions|
  {
    if |actions| > 0 {
      EditsKeepNoErrors(Dispatch(s, actions[0]).0, actions[1..]);
    }
  }

  /** The amount shown on a checkout line: unit price times quantity. */
  function LineAmount(item: CartItem): int {
    item.product.price * item.quantity
  }

  /** The amount column of the checkout list (`cartItems.map`), one entry
      per cart line in cart order. */
  function LineAmounts(cart: seq<CartItem>): (amounts: seq<int>)
    ensures |amounts| == |cart|
    ensures forall i :: 0 <= i < |cart| ==> amounts[i] == cart[i].product.price * cart[i].quantity
    ensures forall i :: 0 <= i < |cart| && cart[i].quantity >= 0 ==> amounts[i] >= 0
  {
    seq(|cart|, i requires 0 <= i < |cart| => LineAmount(cart[i]))
  }
}
