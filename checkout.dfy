/** The checkout screen: a three-field form (name, email, quantity), the
    quantity field's input rule, the checks run when "complete purchase" is
    pressed, the five-second timer that ends the submission with a fixed
    reference, and the total shown beside the form. */
module CheckoutScreen {
  import opened Types
  import opened Strings
  import opened Utilities
  import MockApi
  import EventDetailsScreen

  datatype Field = NameField | EmailField | QuantityField

  /** `formData`. */
  datatype Form = Form(name: string, email: string, quantity: string)

  /** The form as the screen opens: empty name and email, one ticket. */
  const InitialForm: Form := Form("", "", "1")

  /** The reference the success screen is given once the timer fires. */
  const SuccessReference: string := "123456"

  function FieldOf(f: Form, field: Field): string {
    match field
    case NameField => f.name
    case EmailField => f.email
    case QuantityField => f.quantity
  }

  /** `{ ...prev, [field]: value }`: the one field is replaced, the others kept. */
  function WithField(f: Form, field: Field, value: string): (r: Form)
    ensures FieldOf(r, field) == value
    ensures forall other :: other != field ==> FieldOf(r, other) == FieldOf(f, other)
  {
    match field
    case NameField => f.(name := value)
    case EmailField => f.(email := value)
    case QuantityField => f.(quantity := value)
  }

  /** Writing a field back with its own value changes nothing, and a second
      write to the same field overrides the first. */
  lemma WithFieldLaws(f: Form, field: Field, v: string, w: string)
    ensures WithField(f, field, FieldOf(f, field)) == f
    ensures WithField(WithField(f, field, v), field, w) == WithField(f, field, w)
  {
  }

  /** `Number(value) < 11`, for each kind of number the coercion can give. */
  predicate BelowEleven(n: JsNumber) {
    match n
    case Finite(v) => v < 11.0
    case NegativeInfinity => true
    case PositiveInfinity => false
    case NaN => false
  }

  /** The quantity field's input rule: a value is taken when `Number(value)`
      (given as `coerced`) is a number below 11 and the text has no '.'. */
  predicate QuantityAccepted(value: string, coerced: JsNumber) {
    ValidateNumbers(coerced) && BelowEleven(coerced) && '.' !in value
  }

  /** What pressing "complete purchase" leads to: the first failed check's
      alert, or the submission. */
  datatype Verdict = InvalidEmail | NameRequired | QuantityRequired | Submitted

  /** The checks of `handleCheckout`, in the order the screen runs them. */
  function CheckForm(f: Form): Verdict {
    if !ValidateEmail(f.email) then InvalidEmail
    else if |Trim(f.name)| <= 0 then NameRequired
    else if |Trim(f.quantity)| <= 0 then QuantityRequired
    else Submitted
  }

  /** Each alert is raised exactly when its check is the first to fail, and
      the form is submitted exactly when all three pass. */
  lemma CheckFormVerdicts(f: Form)
    ensures CheckForm(f) == InvalidEmail <==> !ValidateEmail(f.email)
    ensures CheckForm(f) == NameRequired <==> ValidateEmail(f.email) && Trim(f.name) == []
    ensures CheckForm(f) == QuantityRequired <==>
      ValidateEmail(f.email) && Trim(f.name) != [] && Trim(f.quantity) == []
    ensures CheckForm(f) == Submitted <==>
      ValidateEmail(f.email) && Trim(f.name) != [] && Trim(f.quantity) != []
  {
    var emailOk, name, quantity := ValidateEmail(f.email), Trim(f.name), Trim(f.quantity);
    assert |name| <= 0 <==> name == [];
    assert |quantity| <= 0 <==> quantity == [];
  }

  /** The form as it opens is refused for its empty email. */
  lemma InitialFormRefused()
    ensures CheckForm(InitialForm) == InvalidEmail
  {
    BlankEmailInvalid(InitialForm.email);
    CheckFormVerdicts(InitialForm);
  }

  /** A submitted form's email would also pass the API's checkout check. */
  lemma SubmittedEmailPassesApi(f: Form)
    requires CheckForm(f) == Submitted
    ensures MockApi.MatchesCheckoutEmail(Trim(f.email))
  {
    CheckFormVerdicts(f);
    ValidEmailPassesCheckout(f.email);
  }

  /** `calculateTotal()`: 0 without an event; otherwise its price times
      `parseInt(quantity) || 1`, so NaN and 0 both count as one ticket. The
      event is what the details screen handed on: full details, or the bare
      summary when they never loaded. */
  function CalculateTotal(event: Option<EventDetailsScreen.Shown>, quantity: string): (total: int)
    ensures event.None? ==> total == 0
    ensures event.Some? && (ParseInt(quantity) == None || ParseInt(quantity) == Some(0)) ==>
      total == EventDetailsScreen.PriceOf(event.value)
    ensures event.Some? && ParseInt(quantity).Some? && ParseInt(quantity).value != 0 ==>
      total == EventDetailsScreen.PriceOf(event.value) * ParseInt(quantity).value
  {
    match event
    case None => 0
    case Some(s) =>
      var n := match ParseInt(quantity) case Some(v) => if v == 0 then 1 else v case None => 1;
      EventDetailsScreen.PriceOf(s) * n
  }

  /** A quantity typed as a positive decimal number costs that many tickets. */
  lemma TotalForCount(s: EventDetailsScreen.Shown, n: nat)
    requires n >= 1
    ensures CalculateTotal(Some(s), NatToString(n)) == EventDetailsScreen.PriceOf(s) * n
  {
    ParseIntOfNatToString(n);
  }

  /** The opening quantity "1" shows the price of one ticket. */
  lemma InitialTotal(s: EventDetailsScreen.Shown)
    ensures CalculateTotal(Some(s), InitialForm.quantity) == EventDetailsScreen.PriceOf(s)
  {
    TotalForCount(s, 1);
  }

  /** The input rule does not exclude negative quantities: "-n", which
      `Number` turns into -n, is taken and is charged as -n tickets. */
  lemma NegativeQuantityAccepted(s: EventDetailsScreen.Shown, n: nat)
    requires n >= 1
    ensures QuantityAccepted("-" + NatToString(n), Finite(-(n as real)))
    ensures CalculateTotal(Some(s), "-" + NatToString(n)) == -(n as int) * EventDetailsScreen.PriceOf(s)
  {
    NegatedHasNoDot(n);
    ParseIntOfNegated(n);
  }

  /** A minus sign followed by decimal digits has no '.'. */
  lemma NegatedHasNoDot(n: nat)
    ensures '.' !in "-" + NatToString(n)
  {
    var s := "-" + NatToString(n);
    forall i | 0 <= i < |s| ensures s[i] != '.' {
      if i > 0 {
        assert s[i] == NatToString(n)[i - 1];
      }
    }
  }

  class Checkout {
    /** `route.params.event`; the screen never changes it. */
    const eventDetails: Option<EventDetailsScreen.Shown>
    var form: Form
    var submitting: bool
    /** Timers started by `handleCheckout` that have not fired yet. */
    var pendingTimers: nat
    /** The reference handed to the success screen, once a timer has fired. */
    var reference: Option<string>

    /** While submitting, some timer is still to fire and end it; a reference
        shown is always the fixed one. */
    predicate Valid()
      reads this
    {
      (submitting ==> pendingTimers > 0) &&
      (reference.Some? ==> reference.value == SuccessReference)
    }

    constructor (eventDetails: Option<EventDetailsScreen.Shown>)
      ensures Valid()
      ensures this.eventDetails == eventDetails
      ensures form == InitialForm && !submitting && pendingTimers == 0 && reference == None
    {
      this.eventDetails := eventDetails;
      form := InitialForm;
      submitting := false;
      pendingTimers := 0;
      reference := None;
    }

    /** `handleInputChange(field, value)`. */
    method HandleInputChange(field: Field, value: string)
      modifies this
      ensures form == WithField(old(form), field, value)
      ensures submitting == old(submitting) && pendingTimers == old(pendingTimers) && reference == old(reference)
    {
      form := WithField(form, field, value);
    }

    /** The quantity input's `onChangeText`, given `Number(value)`: the
        value is taken only when the input rule allows it. */
    method OnQuantityChange(value: string, coerced: JsNumber)
      modifies this
      ensures QuantityAccepted(value, coerced) ==> form == WithField(old(form), QuantityField, value)
      ensures !QuantityAccepted(value, coerced) ==> form == old(form)
      ensures submitting == old(submitting) && pendingTimers == old(pendingTimers) && reference == old(reference)
    {
      if QuantityAccepted(value, coerced) {
        HandleInputChange(QuantityField, value);
      }
    }

    /** `handleCheckout()`: run the checks; on success start submitting and
        schedule the timer. The form itself is never changed. */
    method HandleCheckout() returns (v: Verdict)
      requires Valid()
      modifies this
      ensures Valid()
      ensures form == old(form)
      ensures v == CheckForm(old(form))
      ensures v.Submitted? ==> submitting && pendingTimers == old(pendingTimers) + 1
      ensures !v.Submitted? ==> submitting == old(submitting) && pendingTimers == old(pendingTimers)
      ensures reference == old(reference)
    {
      v := CheckForm(form);
      if v.Submitted? {
        StartSubmitting();
      }
    }

    /** `setSubmitting(true)` and the timer scheduled after it. */
    method StartSubmitting()
      requires Valid()
      modifies this
      ensures Valid()
      ensures submitting && pendingTimers == old(pendingTimers) + 1
      ensures form == old(form) && reference == old(reference)
    {
      submitting := true;
      pendingTimers := pendingTimers + 1;
    }

    /** A timer fires: submitting ends and the success screen gets the
        fixed reference. */
    method FireTimer()
      requires Valid() && pendingTimers > 0
      modifies this
      ensures Valid()
      ensures !submitting && pendingTimers == old(pendingTimers) - 1
      ensures reference == Some(SuccessReference) && form == old(form)
    {
      submitting := false;
      pendingTimers := pendingTimers - 1;
      reference := Some(SuccessReference);
    }

    /** The total the screen shows for its current form. */
    function Total(): (total: int)
      reads this
      ensures eventDetails.None? ==> total == 0
    {
      CalculateTotal(eventDetails, form.quantity)
    }
  }
}
