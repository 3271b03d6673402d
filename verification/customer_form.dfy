/**
 * The add-customer form (the same handler appears in both dashboard
 * generations): refuse an empty name, otherwise emit one draft with an empty
 * transaction list and close the form.
 */
module CustomerForm {
  import opened Wrappers
  import opened Types

  /** The three inputs of the form. */
  datatype FormState = FormState(name: string, phone: string, notes: string)

  /** What a submit produces: at most one `onAddCustomer` draft, and whether `onClose` ran. */
  datatype Outcome = Outcome(emitted: Option<CustomerDraft>, closed: bool)

  /**
   * `handleSubmit`: an empty name emits nothing and leaves the form open; any
   * other name emits the entered name, phone and notes (each possibly empty
   * except the name) with an empty transaction list, then closes the form.
   */
  function Submit(form: FormState): (r: Outcome)
    ensures r.emitted.Some? <==> form.name != ""
    ensures r.closed <==> r.emitted.Some?
    ensures r.emitted.Some? ==>
      r.emitted.value == CustomerDraft(form.name, form.phone, form.notes, Some([]))
  {
    if form.name == "" then Outcome(None, false)
    else Outcome(Some(CustomerDraft(form.name, form.phone, form.notes, Some([]))), true)
  }
}
