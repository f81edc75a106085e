/**
  The add-subscription form: its state, the two ways it changes (typing into
  a field, picking a popular service) and the record it submits.
*/
module AddForm {
  import opened Wrappers
  import opened Types

  /** The form's inputs. */
  datatype Field = ServiceName | PlanName | Price | Currency | BillingPeriod | NextBillDate | Category | Notes

  /** Every input holds text, as in the browser. */
  datatype FormState = FormState(
    serviceName: string,
    planName: string,
    price: string,
    currency: string,
    cadence: string,
    nextBillDate: string,
    category: string,
    notes: string)

  /** The `name` attribute of each input, which is also its key in the form state. */
  function InputName(f: Field): string
  {
    match f
    case ServiceName => "service_name"
    case PlanName => "plan_name"
    case Price => "price"
    case Currency => "currency"
    case BillingPeriod => "cadence"
    case NextBillDate => "next_bill_date"
    case Category => "category"
    case Notes => "notes"
  }

  /** Distinct inputs have distinct names, so a change event addresses one field. */
  lemma InputNameInjective(f: Field, g: Field)
    ensures InputName(f) == InputName(g) <==> f == g
  {
  }

  /** The text an input currently holds. */
  function Get(form: FormState, f: Field): string
  {
    match f
    case ServiceName => form.serviceName
    case PlanName => form.planName
    case Price => form.price
    case Currency => form.currency
    case BillingPeriod => form.cadence
    case NextBillDate => form.nextBillDate
    case Category => form.category
    case Notes => form.notes
  }

  /** A form is determined by what its inputs hold. */
  lemma FormExtensional(a: FormState, b: FormState)
    requires forall f :: Get(a, f) == Get(b, f)
    ensures a == b
  {
    assert Get(a, ServiceName) == Get(b, ServiceName);
    assert Get(a, PlanName) == Get(b, PlanName);
    assert Get(a, Price) == Get(b, Price);
    assert Get(a, Currency) == Get(b, Currency);
    assert Get(a, BillingPeriod) == Get(b, BillingPeriod);
    assert Get(a, NextBillDate) == Get(b, NextBillDate);
    assert Get(a, Category) == Get(b, Category);
    assert Get(a, Notes) == Get(b, Notes);
  }

  /** The form as the page first renders it: US dollars, monthly, everything else blank. */
  function InitialForm(): (r: FormState)
    ensures forall f :: Get(r, f) == (if f == Currency then "USD" else if f == BillingPeriod then "monthly" else "")
  {
    FormState("", "", "", "USD", "monthly", "", "", "")
  }

  /** `handleChange`: the input that fired takes the new text; no other input changes. */
  function HandleChange(form: FormState, f: Field, value: string): (r: FormState)
    ensures Get(r, f) == value
    ensures forall g :: g != f ==> Get(r, g) == Get(form, g)
  {
    match f
    case ServiceName => form.(serviceName := value)
    case PlanName => form.(planName := value)
    case Price => form.(price := value)
    case Currency => form.(currency := value)
    case BillingPeriod => form.(cadence := value)
    case NextBillDate => form.(nextBillDate := value)
    case Category => form.(category := value)
    case Notes => form.(notes := value)
  }

  /** Only the last of two edits to one input survives. */
  lemma HandleChangeOverwrites(form: FormState, f: Field, a: string, b: string)
    ensures HandleChange(HandleChange(form, f, a), f, b) == HandleChange(form, f, b)
  {
    FormExtensional(HandleChange(HandleChange(form, f, a), f, b), HandleChange(form, f, b));
  }

  /** Edits to different inputs can happen in either order. */
  lemma HandleChangeCommutes(form: FormState, f: Field, a: string, g: Field, b: string)
    requires f != g
    ensures HandleChange(HandleChange(form, f, a), g, b) == HandleChange(HandleChange(form, g, b), f, a)
  {
    FormExtensional(HandleChange(HandleChange(form, f, a), g, b), HandleChange(HandleChange(form, g, b), f, a));
  }

  /** Re-entering what an input already holds leaves the form as it was. */
  lemma HandleChangeUnchanged(form: FormState, f: Field)
    ensures HandleChange(form, f, Get(form, f)) == form
  {
    FormExtensional(HandleChange(form, f, Get(form, f)), form);
  }

  /** A quick-add button: a service's name and its category. */
  datatype PopularService = PopularService(name: string, category: string)

  const PopularServices: seq<PopularService> := [
    PopularService("Netflix", "Entertainment"),
    PopularService("Spotify", "Music"),
    PopularService("Amazon Prime", "Shopping"),
    PopularService("Disney+", "Entertainment"),
    PopularService("Apple Music", "Music"),
    PopularService("YouTube Premium", "Entertainment"),
    PopularService("Adobe Creative Cloud", "Software"),
    PopularService("Microsoft 365", "Software")
  ]

  /** The category selector's options (the first, "", is its placeholder). */
  const CategoryChoices: seq<string> := [
    "", "Entertainment", "Music", "Software", "Shopping", "News", "Fitness", "Education", "Utilities", "Other"
  ]

  /** The billing-period selector's options. */
  const CadenceChoices: seq<string> := ["daily", "weekly", "monthly", "quarterly", "annual"]

  /** The billing-period options are exactly the stored cadence names. */
  lemma CadenceChoicesAreCadences(s: string)
    ensures s in CadenceChoices <==> ParseCadence(s).Some?
  {
  }

  /** Each cadence has exactly one option. */
  lemma CadenceChoicesCoverEnumeration(c: Cadence)
    ensures CadenceName(c) in CadenceChoices
    ensures |CadenceChoices| == 5
  {
  }

  /** Every quick-add category is one the category selector offers. */
  lemma PopularCategoriesSelectable()
    ensures forall i :: 0 <= i < |PopularServices| ==> PopularServices[i].category in CategoryChoices
  {
  }

  /** Quick add: fill in a popular service's name and category, leaving the rest. */
  function QuickAdd(form: FormState, service: PopularService): (r: FormState)
    ensures Get(r, ServiceName) == service.name
    ensures Get(r, Category) == service.category
    ensures forall g :: g != ServiceName && g != Category ==> Get(r, g) == Get(form, g)
  {
    form.(serviceName := service.name, category := service.category)
  }

  /** A quick add is the same as typing the name and choosing the category. */
  lemma QuickAddIsTwoChanges(form: FormState, service: PopularService)
    ensures QuickAdd(form, service)
            == HandleChange(HandleChange(form, ServiceName, service.name), Category, service.category)
  {
    FormExtensional(
      QuickAdd(form, service),
      HandleChange(HandleChange(form, ServiceName, service.name), Category, service.category));
  }

  /** The billing period holds one of the five cadences. */
  predicate CadenceSelected(form: FormState)
  {
    form.cadence in CadenceChoices
  }

  /**
    The billing period stays a cadence from the first render on, as long as it
    only changes through its selector.
  */
  lemma CadenceSelectedInvariant(form: FormState, f: Field, value: string, service: PopularService)
    ensures CadenceSelected(InitialForm())
    ensures CadenceSelected(form) && (f != BillingPeriod || value in CadenceChoices) ==>
      CadenceSelected(HandleChange(form, f, value))
    ensures CadenceSelected(form) ==> CadenceSelected(QuickAdd(form, service))
  {
    assert Get(HandleChange(form, f, value), BillingPeriod) == form.cadence || f == BillingPeriod;
  }

  /** `value || null`: blank text is sent as null. */
  function OrNull(s: string): (r: Option<string>)
    ensures r.None? <==> s == ""
    ensures r.Some? ==> r.value == s
  {
    if s == "" then None else Some(s)
  }

  /** Null read back as blank text. */
  function BlankIfNull(o: Option<string>): string
  {
    o.GetOr("")
  }

  /** The body of the POST the form submits. */
  datatype Payload = Payload(
    serviceName: string,
    planName: Option<string>,
    price: real,
    currency: string,
    cadence: string,
    nextBillDate: string,
    category: Option<string>,
    notes: Option<string>,
    status: Status,
    verified: bool)

  /**
    `handleSubmit`'s payload. `price` is the number the price text parses to.
    New records start active and unverified.
  */
  function BuildPayload(form: FormState, price: real): (r: Payload)
    ensures r.status == Active && !r.verified
    ensures r.serviceName == form.serviceName && r.currency == form.currency
    ensures r.cadence == form.cadence && r.nextBillDate == form.nextBillDate
    ensures r.price == price
    ensures r.planName.None? <==> form.planName == ""
    ensures r.category.None? <==> form.category == ""
    ensures r.notes.None? <==> form.notes == ""
    ensures CadenceSelected(form) ==> ParseCadence(r.cadence).Some?
  {
    Payload(
      form.serviceName,
      OrNull(form.planName),
      price,
      form.currency,
      form.cadence,
      form.nextBillDate,
      OrNull(form.category),
      OrNull(form.notes),
      Active,
      false)
  }

  /** Nothing typed is lost: the payload gives back every input except the price text. */
  lemma PayloadKeepsForm(form: FormState, price: real)
    ensures var p := BuildPayload(form, price);
      FormState(p.serviceName, BlankIfNull(p.planName), form.price, p.currency, p.cadence,
                p.nextBillDate, BlankIfNull(p.category), BlankIfNull(p.notes)) == form
  {
  }
}
