/**
 * The contact page's form: four text fields edited one at a time and cleared on submit.
 * Submitting only logs the data; nothing is sent to the server.
 */
module ContactForm {
  import opened Wrappers

  datatype Field = Name | Email | Subject | Message

  datatype Form = Form(name: string, email: string, subject: string, message: string)

  const Initial := Form("", "", "", "")

  function Get(f: Form, field: Field): string {
    match field
    case Name => f.name
    case Email => f.email
    case Subject => f.subject
    case Message => f.message
  }

  /** `handleInputChange`: the edited input's field takes the typed value, the other three keep theirs. */
  function Edit(f: Form, field: Field, v: string): (r: Form)
    ensures Get(r, field) == v
    ensures forall g :: g != field ==> Get(r, g) == Get(f, g)
  {
    match field
    case Name => f.(name := v)
    case Email => f.(email := v)
    case Subject => f.(subject := v)
    case Message => f.(message := v)
  }

  /** Every input is `required`: the browser submits only when no field is empty. */
  predicate Complete(f: Form) {
    forall g :: Get(f, g) != ""
  }

  /** `handleSubmit`: the form is logged, then every field is cleared. */
  function HandleSubmit(f: Form): (r: (Form, Form))
    requires Complete(f)
    ensures forall g :: Get(r.0, g) == ""
    ensures r.1 == f
  {
    (Initial, f)
  }

  /** Pressing the submit button: blocked by the browser while a field is empty. */
  function Press(f: Form): (r: (Form, Option<Form>))
    ensures r.1.Some? <==> Complete(f)
    ensures Complete(f) ==> r.0 == Initial && r.1 == Some(f)
    ensures !Complete(f) ==> r.0 == f
  {
    if Complete(f) then (HandleSubmit(f).0, Some(HandleSubmit(f).1)) else (f, None)
  }

  /** The form starts with four empty fields, so it cannot be submitted untouched. */
  lemma InitialEmpty()
    ensures forall g :: Get(Initial, g) == ""
    ensures !Complete(Initial)
  {
    assert Get(Initial, Name) == "";
  }

  /** Two edits of the same field: the last one wins. */
  lemma EditLastWins(f: Form, field: Field, v: string, w: string)
    ensures Edit(Edit(f, field, v), field, w) == Edit(f, field, w)
  {
  }

  /** Edits of different fields commute. */
  lemma EditsCommute(f: Form, a: Field, v: string, b: Field, w: string)
    requires a != b
    ensures Edit(Edit(f, a, v), b, w) == Edit(Edit(f, b, w), a, v)
  {
  }

  /** The state after a submit does not depend on what was typed. */
  lemma SubmitForgets(f: Form, g: Form)
    requires Complete(f) && Complete(g)
    ensures HandleSubmit(f).0 == HandleSubmit(g).0 == Initial
  {
  }

  /** Pressing twice leaves the form as pressing once, and the second press sends nothing. */
  lemma PressIdempotent(f: Form)
    requires Complete(f)
    ensures Press(Press(f).0).0 == Press(f).0
    ensures Press(Press(f).0).1.None?
  {
    InitialEmpty();
  }

  /** Filling the four fields from the initial state gives the typed record, submittable exactly when no value is empty. */
  lemma FillThenSubmit(n: string, e: string, s: string, m: string)
    ensures Edit(Edit(Edit(Edit(Initial, Name, n), Email, e), Subject, s), Message, m) == Form(n, e, s, m)
    ensures Complete(Form(n, e, s, m)) <==> n != "" && e != "" && s != "" && m != ""
  {
    if n != "" && e != "" && s != "" && m != "" {
      forall g ensures Get(Form(n, e, s, m), g) != "" { }
    } else {
      assert Get(Form(n, e, s, m), Name) == "" || Get(Form(n, e, s, m), Email) == ""
        || Get(Form(n, e, s, m), Subject) == "" || Get(Form(n, e, s, m), Message) == "";
    }
  }
}
