/** The member detail/edit modal: view a member, switch to edit mode, change
    fields, validate, and submit the update. */
module DetailAnggota {
  import opened Records
  import opened Text
  import opened Validators
  import opened Tenure

  /** `validationErrors`: field name to message; `None` is a key whose
      message was cleared to `undefined`. */
  type Errors = map<string, Option<string>>

  datatype Editor = Editor(
    anggota: Member,     // the record the modal was opened with
    form: Member,        // `formData`
    editing: bool,       // `isEditMode`
    submitting: bool,    // `isSubmitting`
    error: string,       // the banner error text
    errors: Errors,      // `validationErrors`
    closed: bool)        // `onClose` has been called

  /** The form the modal starts from: the record, with the start-date field
      forced to a string. */
  function InitialForm(anggota: Member): (form: Member)
    ensures form.Keys == anggota.Keys + {TanggalMulai}
    ensures forall f :: f in anggota && f != TanggalMulai ==> form[f] == anggota[f]
    ensures Get(form, TanggalMulai) == Some(if Filled(anggota, TanggalMulai) then anggota[TanggalMulai].value else "")
  {
    Assign(anggota, TanggalMulai, if Filled(anggota, TanggalMulai) then Get(anggota, TanggalMulai).value else "")
  }

  function Open(anggota: Member): Editor {
    Editor(anggota, InitialForm(anggota), false, false, "", map[], false)
  }

  /** An error entry the form shows: present and truthy. */
  predicate Shown(errors: Errors, f: string) {
    f in errors && errors[f].Some? && errors[f].value != ""
  }

  /** Every recorded message is a non-empty text. */
  predicate AllShown(errors: Errors) {
    forall f :: f in errors ==> Shown(errors, f)
  }

  /** The fields `validateForm` checks. */
  const Checked: set<string> := {NamaAnggota, Npm, Divisi, Email, NomorTelepon, TanggalMulai}

  /** Whether `validateForm` rejects field `f`: a required field that is
      empty, or a filled e-mail, phone or start date of the wrong shape.
      `parses` says whether `new Date(s)` gives a valid time, which the
      browser decides. */
  predicate Rejects(form: Member, parses: string -> bool, f: string) {
    if f == NamaAnggota || f == Npm || f == Divisi then !Filled(form, f)
    else if f == Email then Filled(form, f) && !ValidEmail(form[f].value)
    else if f == NomorTelepon then Filled(form, f) && !ValidPhone(form[f].value)
    else Filled(form, f) && !parses(form[f].value)
  }

  /** The message shown under a rejected field. */
  function Message(f: string): (msg: string)
    ensures msg != ""
  {
    if f == NamaAnggota then "Nama anggota wajib diisi"
    else if f == Npm then "NPM wajib diisi"
    else if f == Divisi then "Divisi wajib diisi"
    else if f == Email then "Format email tidak valid"
    else if f == NomorTelepon then "Format nomor telepon tidak valid"
    else "Format tanggal tidak valid"
  }

  /** `validateForm`'s error map: one message per rejected field. */
  function ValidateForm(form: Member, parses: string -> bool): (errors: Errors)
    ensures NamaAnggota in errors <==> !Filled(form, NamaAnggota)
    ensures Npm in errors <==> !Filled(form, Npm)
    ensures Divisi in errors <==> !Filled(form, Divisi)
    ensures Email in errors <==> Filled(form, Email) && !ValidEmail(form[Email].value)
    ensures NomorTelepon in errors <==> Filled(form, NomorTelepon) && !ValidPhone(form[NomorTelepon].value)
    ensures TanggalMulai in errors <==> Filled(form, TanggalMulai) && !parses(form[TanggalMulai].value)
    ensures errors.Keys <= Checked
    ensures AllShown(errors)
  {
    map f | f in Checked && Rejects(form, parses, f) :: Some(Message(f))
  }

  /** `validateForm()` returns true iff no error was recorded. */
  predicate FormValid(form: Member, parses: string -> bool) {
    |ValidateForm(form, parses).Keys| == 0
  }

  /** The form passes exactly when the three required fields are filled, the
      e-mail and phone, if given, have the right shape, and a given start
      date parses. */
  lemma FormValidIff(form: Member, parses: string -> bool)
    ensures FormValid(form, parses) <==>
      && Filled(form, NamaAnggota) && Filled(form, Npm) && Filled(form, Divisi)
      && (Filled(form, Email) ==> ValidEmail(form[Email].value))
      && (Filled(form, NomorTelepon) ==> ValidPhone(form[NomorTelepon].value))
      && (Filled(form, TanggalMulai) ==> parses(form[TanggalMulai].value))
  {
    var errors := ValidateForm(form, parses);
    if |errors.Keys| != 0 {
      var f :| f in errors.Keys;
    }
  }

  /** `handleChange`: set the field; if it had a truthy error message, set that
      entry to `undefined` (the key stays). */
  function HandleChange(ed: Editor, name: string, value: string): (r: Editor)
    ensures r.form == Assign(ed.form, name, value)
    ensures r.errors.Keys == ed.errors.Keys
    ensures !Shown(r.errors, name)
    ensures forall f :: f in ed.errors && f != name ==> r.errors[f] == ed.errors[f]
    ensures r.(form := ed.form, errors := ed.errors) == ed
  {
    var errors := if Shown(ed.errors, name) then ed.errors[name := None] else ed.errors;
    ed.(form := Assign(ed.form, name, value), errors := errors)
  }

  /** The edit-mode banner: "Terdapat n kesalahan pada form", or nothing (0). */
  function BannerCount(ed: Editor): nat {
    if ed.editing && |ed.errors.Keys| > 0 then |ed.errors.Keys| else 0
  }

  /** Fixing a field clears its message but not its key, so the banner's
      count does not go down. */
  lemma ChangeKeepsBannerCount(ed: Editor, name: string, value: string)
    ensures BannerCount(HandleChange(ed, name, value)) == BannerCount(ed)
  {
  }

  /** `toggleEditMode`: entering edit mode keeps the form; leaving it (cancel)
      puts back the record the modal was opened with and drops all errors. */
  function ToggleEditMode(ed: Editor): (r: Editor)
    ensures r.editing == !ed.editing && r.error == ""
    ensures ed.editing ==> r.form == ed.anggota && r.errors == map[]
    ensures !ed.editing ==> r.form == ed.form && r.errors == ed.errors
    ensures r.anggota == ed.anggota && r.submitting == ed.submitting && r.closed == ed.closed
  {
    if ed.editing then ed.(form := ed.anggota, errors := map[], editing := false, error := "")
    else ed.(editing := true, error := "")
  }

  /** Cancelling an edit restores the original record whatever was typed; it
      is the record itself, so a start-date key that `InitialForm` added is
      gone again. */
  lemma CancelRestoresRecord(anggota: Member, edits: seq<(string, string)>)
    ensures var cancelled := ToggleEditMode(ApplyEdits(ToggleEditMode(Open(anggota)), edits));
      && cancelled.form == anggota
      && cancelled.errors == map[]
      && !cancelled.editing
      && (TanggalMulai !in anggota ==> TanggalMulai in Open(anggota).form && TanggalMulai !in cancelled.form)
  {
    ApplyEditsKeepsMode(ToggleEditMode(Open(anggota)), edits);
  }

  function ApplyEdits(ed: Editor, edits: seq<(string, string)>): Editor
    decreases |edits|
  {
    if edits == [] then ed else ApplyEdits(HandleChange(ed, edits[0].0, edits[0].1), edits[1..])
  }

  lemma {:induction false} ApplyEditsKeepsMode(ed: Editor, edits: seq<(string, string)>)
    ensures ApplyEdits(ed, edits).editing == ed.editing
    ensures ApplyEdits(ed, edits).anggota == ed.anggota
    decreases |edits|
  {
    if edits != [] {
      ApplyEditsKeepsMode(HandleChange(ed, edits[0].0, edits[0].1), edits[1..]);
    }
  }

  datatype SubmitStep = SubmitStep(state: Editor, put: Option<Member>)

  /** `handleSubmit` up to the request: validate, and on failure stop with the
      errors shown; on success the form is sent with `PUT /anggota/:id`. */
  function HandleSubmit(ed: Editor, parses: string -> bool): (s: SubmitStep)
    ensures s.state.errors == ValidateForm(ed.form, parses)
    ensures s.put.Some? <==> FormValid(ed.form, parses)
    ensures s.put.Some? ==> s.put.value == ed.form && s.state.submitting
    ensures s.put.None? ==> !s.state.submitting
    ensures s.state.error == "" && s.state.form == ed.form && s.state.editing == ed.editing
  {
    var errors := ValidateForm(ed.form, parses);
    var st := ed.(submitting := true, error := "", errors := errors);
    if |errors.Keys| == 0 then SubmitStep(st, Some(ed.form))
    else SubmitStep(st.(submitting := false), None)
  }

  /** What the server answered to the update. */
  datatype PutResult = Saved(row: Member) | PutFailed(message: Option<string>)

  /** After the request: a saved update leaves edit mode and closes the modal;
      a failure shows the server's message or a default one. */
  function AfterPut(ed: Editor, result: PutResult): (r: Editor)
    ensures !r.submitting
    ensures result.Saved? ==> !r.editing && r.closed
    ensures result.PutFailed? ==> r.editing == ed.editing && r.closed == ed.closed
    ensures result.PutFailed? && result.message.Some? && result.message.value != "" ==> r.error == result.message.value
    ensures result.PutFailed? && (result.message.None? || result.message.value == "") ==> r.error == "Gagal menyimpan perubahan"
  {
    match result
    case Saved(_) => ed.(editing := false, closed := true, submitting := false)
    case PutFailed(msg) => ed.(error := TruthyOr(msg, "Gagal menyimpan perubahan"), submitting := false)
  }

  /** Dismissing the dialog (backdrop or Escape) closes it only in view mode. */
  function Dismiss(ed: Editor): (r: Editor)
    ensures r.closed <==> ed.closed || !ed.editing
    ensures r.(closed := ed.closed) == ed
  {
    if ed.editing then ed else ed.(closed := true)
  }

  /** `formatDateForInput`: the empty string for an empty date; otherwise the
      `YYYY-MM-DD` day of the parsed date, given here as `isoDay`, which is
      `None` where `toISOString` throws on an invalid date and the empty
      string is shown instead. */
  function DateInput(m: Member, f: string, isoDay: string -> Option<string>): (text: string)
    ensures !Filled(m, f) ==> text == ""
    ensures Filled(m, f) && isoDay(m[f].value).Some? ==> text == isoDay(m[f].value).value
    ensures Filled(m, f) && isoDay(m[f].value).None? ==> text == ""
  {
    if Filled(m, f) then isoDay(Get(m, f).value).GetOr("") else ""
  }

  /** What a field shows. A text or select field: in view mode the record's
      value or the dash; in edit mode the form's value, or the select's
      default for status ("Aktif") and sanction ("Baik"), or nothing. A date
      field: in view mode the record's date rendered (or the dash); in edit
      mode the form's date as a `YYYY-MM-DD` input value (or nothing). */
  function Displayed(ed: Editor, f: string, render: string -> string, isoDay: string -> Option<string>): (shown: string)
    ensures f !in DateFields && !ed.editing ==> shown == OrDash(ed.anggota, f)
    ensures f !in DateFields && ed.editing && Filled(ed.form, f) ==> shown == ed.form[f].value
    ensures f !in DateFields && ed.editing && !Filled(ed.form, f) ==>
      shown == (if f == StatusKeanggotaan then "Aktif" else if f == Sanksi then "Baik" else "")
    ensures f in DateFields && !ed.editing ==> shown == FormatDate(ed.anggota, f, render)
    ensures f in DateFields && ed.editing ==> shown == DateInput(ed.form, f, isoDay)
  {
    if f in DateFields then
      if !ed.editing then FormatDate(ed.anggota, f, render) else DateInput(ed.form, f, isoDay)
    else if !ed.editing then OrDash(ed.anggota, f)
    else TruthyOr(Get(ed.form, f), if f == StatusKeanggotaan then "Aktif" else if f == Sanksi then "Baik" else "")
  }

  /** View mode shows the record the modal was opened with: edits typed and
      then cancelled never reach the view, for text and date fields alike. */
  lemma CancelledEditsAreNotShown(anggota: Member, edits: seq<(string, string)>, f: string,
                                  render: string -> string, isoDay: string -> Option<string>)
    ensures Displayed(ToggleEditMode(ApplyEdits(ToggleEditMode(Open(anggota)), edits)), f, render, isoDay)
         == Displayed(Open(anggota), f, render, isoDay)
  {
    CancelRestoresRecord(anggota, edits);
  }

  /** A date the browser cannot read is shown through the renderer in view
      mode but as an empty input in edit mode: switching to edit mode hides
      it. */
  lemma UnreadableDateBlankInEditMode(ed: Editor, f: string, render: string -> string, isoDay: string -> Option<string>)
    requires f in DateFields && Filled(ed.form, f) && isoDay(ed.form[f].value).None?
    ensures Displayed(ed.(editing := true), f, render, isoDay) == ""
    ensures Filled(ed.anggota, f) ==> Displayed(ed.(editing := false), f, render, isoDay) == render(ed.anggota[f].value)
  {
  }

  /** When the validator's date test and the label's date reader agree, a
      saved start date that passed validation is shown as a year span, never
      as "NaN-NaN". */
  lemma ValidatedStartHasYearSpan(form: Member, parses: string -> bool, date: string -> Option<Date>)
    requires forall s :: parses(s) <==> date(s).Some?
    requires FormValid(form, parses)
    ensures !StartOf(form, date).Unparsable?
    ensures PeriodLabel(StartOf(form, date)) != NaNSpan
  {
    assert TanggalMulai !in ValidateForm(form, parses);
  }

  /** The period shown in the modal is read from the record, not from the
      form being edited. */
  function Period(ed: Editor, date: string -> Option<Date>): (text: string)
    ensures text == "-" <==> !Filled(ed.anggota, TanggalMulai)
    ensures text == PeriodLabel(StartOf(ed.anggota, date))
  {
    PeriodLabel(StartOf(ed.anggota, date))
  }

  /** The WhatsApp link under the phone number: shown in view mode when the
      form (not the record) holds a number. */
  function WhatsAppLink(ed: Editor): (link: Option<string>)
    ensures link.Some? <==> !ed.editing && Filled(ed.form, NomorTelepon)
    ensures link.Some? ==> link.value == WhatsAppHref(ed.form[NomorTelepon].value)
  {
    if !ed.editing && Filled(ed.form, NomorTelepon) then Some(WhatsAppHref(Get(ed.form, NomorTelepon).value))
    else None
  }
}
