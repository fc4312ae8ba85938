/**
 * The lead-capture form of the awareness program page: a record of seven
 * text fields, all empty at first, updated one named field per input
 * event and reset to all-empty on submit.
 *
 * The record is a map from field name to value, because the input handler
 * writes the key named by the event's target (`[e.target.name]`): a name
 * outside the seven would add a key, as the object spread does.
 */
module AwarenessForm {

  /** The seven fields of the form, by name. */
  const FieldNames: set<string> :=
    {"schoolName", "contactName", "email", "phone", "studentCount", "preferredDate", "message"}

  type FormData = map<string, string>

  /** The initial (and post-submit) record: every field present and empty. */
  function EmptyForm(): (f: FormData)
    ensures f.Keys == FieldNames
    ensures forall name :: name in f ==> f[name] == ""
  {
    map["schoolName" := "", "contactName" := "", "email" := "", "phone" := "",
        "studentCount" := "", "preferredDate" := "", "message" := ""]
  }

  /** `{...formData, [name]: value}`: the named field set, every other field kept. */
  function WithInput(form: FormData, name: string, value: string): (r: FormData)
    ensures r.Keys == form.Keys + {name}
    ensures r[name] == value
    ensures forall other :: other in form && other != name ==> r[other] == form[other]
  {
    form[name := value]
  }

  /** The events the form handles. */
  datatype FormEvent = InputChange(name: string, value: string) | Submit

  /** One event: an input change writes one field, a submit resets the record. */
  function Step(form: FormData, e: FormEvent): (r: FormData)
  {
    match e
    case InputChange(name, value) => WithInput(form, name, value)
    case Submit => EmptyForm()
  }

  /** The record after a sequence of events, from the given one. */
  function Run(form: FormData, events: seq<FormEvent>): (r: FormData)
    decreases |events|
  {
    if events == [] then form else Run(Step(form, events[0]), events[1..])
  }

  /** The same input change applied twice gives the record it gives once. */
  lemma InputChangeIdempotent(form: FormData, name: string, value: string)
    ensures WithInput(WithInput(form, name, value), name, value) == WithInput(form, name, value)
  {
  }

  /** Changes to two different fields commute. */
  lemma InputChangesCommute(form: FormData, n1: string, v1: string, n2: string, v2: string)
    requires n1 != n2
    ensures WithInput(WithInput(form, n1, v1), n2, v2) == WithInput(WithInput(form, n2, v2), n1, v1)
  {
  }

  /** Submitting resets whatever the record holds, so submitting twice is submitting once. */
  lemma SubmitIdempotent(form: FormData)
    ensures Step(Step(form, Submit), Submit) == Step(form, Submit) == EmptyForm()
  {
  }

  /** No sequence of events ever loses one of the seven fields. */
  lemma {:induction false} RunKeepsFields(form: FormData, events: seq<FormEvent>)
    requires FieldNames <= form.Keys
    ensures FieldNames <= Run(form, events).Keys
    decreases |events|
  {
    if events != [] {
      RunKeepsFields(Step(form, events[0]), events[1..]);
    }
  }

  /** Whatever came before, a run that ends in a submit leaves the empty record. */
  lemma {:induction false} RunEndingInSubmit(form: FormData, events: seq<FormEvent>)
    ensures Run(form, events + [Submit]) == EmptyForm()
    decreases |events|
  {
    if events != [] {
      assert (events + [Submit])[1..] == events[1..] + [Submit];
      RunEndingInSubmit(Step(form, events[0]), events[1..]);
    } else {
      assert events + [Submit] == [Submit];
    }
  }

  /** The page's form state: `formData` and its two handlers. */
  class LeadCaptureForm {
    var formData: FormData

    /**
     * The record holds exactly the seven fields: every input on the page
     * is named after one of them.
     */
    ghost predicate Valid()
      reads this
    {
      formData.Keys == FieldNames
    }

    constructor ()
      ensures Valid()
      ensures formData == EmptyForm()
    {
      formData := EmptyForm();
    }

    /** `handleInputChange`: the target's field takes the target's value. */
    method HandleInputChange(name: string, value: string)
      requires Valid()
      requires name in FieldNames
      modifies this
      ensures Valid()
      ensures formData == Step(old(formData), InputChange(name, value))
    {
      formData := formData[name := value];
    }

    /**
     * `handleSubmit`: returns the record handed to the acknowledgement
     * (logged by the source) and resets the form.
     */
    method HandleSubmit() returns (submitted: FormData)
      requires Valid()
      modifies this
      ensures Valid()
      ensures submitted == old(formData)
      ensures formData == Step(old(formData), Submit)
    {
      submitted := formData;
      formData := EmptyForm();
    }
  }
}
