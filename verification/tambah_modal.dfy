/** The "add member" dialog: a form with defaults, city-to-province filling,
    a validation that stops at the first failing rule, and the create request. */
module TambahModal {
  import opened Records
  import opened Validators
  import opened Tenure
  import Locations
  import DetailAnggota

  /** The form both the initial state and the Reset button produce: every
      field empty except status "Aktif" and sanction "Baik". */
  function Blank(): (form: Member)
    ensures forall f :: f in form ==> form[f].Some?
    ensures forall f :: f in form && f != StatusKeanggotaan && f != Sanksi ==> form[f] == Some("")
    ensures Get(form, StatusKeanggotaan) == Some("Aktif") && Get(form, Sanksi) == Some("Baik")
    ensures {NamaAnggota, Npm, Divisi, Email, NomorTelepon, KotaKabupaten, Provinsi, TanggalMulai} <= form.Keys
    ensures !Filled(form, NamaAnggota) && !Filled(form, TanggalMulai)
  {
    map[
      NamaAnggota := Some(""), Npm := Some(""), "kategori_kelas" := Some(""),
      "kelas" := Some(""), "angkatan" := Some(""), Divisi := Some(""),
      Jabatan := Some(""), "jenis_kelamin" := Some(""), KotaKabupaten := Some(""),
      Provinsi := Some(""), Email := Some(""), NomorTelepon := Some(""),
      StatusKeanggotaan := Some("Aktif"), Sanksi := Some("Baik"),
      TanggalSanksi := Some(""), "alasan_sanksi" := Some(""),
      TanggalPerbaikan := Some(""), "tindakan_perbaikan" := Some(""),
      "status_tindak_lanjut_sanksi" := Some(""), TanggalMulai := Some("")]
  }

  datatype Modal = Modal(
    form: Member,      // `formData`
    loading: bool,     // `isLoading`
    error: string,     // `formError`
    closed: bool)      // `onClose` has been called

  function Initial(): Modal {
    Modal(Blank(), false, "", false)
  }

  /** `resetForm`: back to the blank form, no error. */
  function Reset(m: Modal): (r: Modal)
    ensures r.form == Initial().form && r.error == ""
    ensures r.loading == m.loading && r.closed == m.closed
  {
    m.(form := Blank(), error := "")
  }

  /** `handleChange`: the shared rule of both add-member forms. Changing a
      field the form already has keeps its set of fields, since the blank
      form has the province field the city fills in. */
  function HandleChange(m: Modal, name: string, value: string, mapping: Locations.LocationMapping): (r: Modal)
    ensures r.form == Locations.HandleChange(m.form, name, value, mapping)
    ensures name in m.form && Provinsi in m.form ==> r.form.Keys == m.form.Keys
    ensures r.(form := m.form) == m
  {
    m.(form := Locations.HandleChange(m.form, name, value, mapping))
  }

  const RequiredMessage := "Nama, NPM, dan Divisi wajib diisi"
  const EmailMessage := "Format email tidak valid"
  const PhoneMessage := "Format nomor telepon tidak valid"

  datatype Verdict = Pass | Fail(message: string)

  /** A filled field that fails its shape check. */
  predicate BadEmail(form: Member) {
    Filled(form, Email) && !ValidEmail(form[Email].value)
  }

  predicate BadPhone(form: Member) {
    Filled(form, NomorTelepon) && !ValidPhone(form[NomorTelepon].value)
  }

  /** `validateForm`: the first failing rule, in the order required fields,
      e-mail, phone number. */
  function ValidateForm(form: Member): (v: Verdict)
    ensures v.Pass? <==> RequiredFilled(form) && !BadEmail(form) && !BadPhone(form)
    ensures v == Fail(RequiredMessage) <==> !RequiredFilled(form)
    ensures v == Fail(EmailMessage) <==> RequiredFilled(form) && BadEmail(form)
    ensures v == Fail(PhoneMessage) <==> RequiredFilled(form) && !BadEmail(form) && BadPhone(form)
  {
    if !RequiredFilled(form) then Fail(RequiredMessage)
    else if BadEmail(form) then Fail(EmailMessage)
    else if BadPhone(form) then Fail(PhoneMessage)
    else Pass
  }

  /** The dialog accepts exactly the forms the detail modal's editor accepts,
      except that it never looks at the start date. */
  lemma AgreesWithEditor(form: Member, parses: string -> bool)
    ensures DetailAnggota.FormValid(form, parses) <==>
      ValidateForm(form).Pass? && (Filled(form, TanggalMulai) ==> parses(form[TanggalMulai].value))
  {
    DetailAnggota.FormValidIff(form, parses);
  }

  /** The blank form is always sent back for its missing required fields. */
  lemma BlankIsRejected()
    ensures ValidateForm(Blank()) == Fail(RequiredMessage)
  {
  }

  datatype SubmitStep = SubmitStep(state: Modal, post: Option<Member>)

  /** `handleSubmit` up to the request: a failed rule shows its message and
      sends nothing; a passing form is sent with `POST /anggota`. */
  function HandleSubmit(m: Modal): (s: SubmitStep)
    ensures s.post.Some? <==> ValidateForm(m.form).Pass?
    ensures s.post.Some? ==> s.post.value == m.form && s.state.loading && s.state.error == ""
    ensures s.post.None? ==> !s.state.loading && Fail(s.state.error) == ValidateForm(m.form)
    ensures s.state.form == m.form && s.state.closed == m.closed
  {
    match ValidateForm(m.form)
    case Pass => SubmitStep(m.(loading := true, error := ""), Some(m.form))
    case Fail(msg) => SubmitStep(m.(loading := false, error := msg), None)
  }

  /** What the server answered to the create request. */
  datatype PostResult = Created(row: Member) | PostFailed(message: Option<string>)

  const CreateFailedMessage := "Terjadi kesalahan saat menambahkan anggota"

  /** After the request: a created member resets the form and closes the
      dialog; a failure keeps the form and shows the server's message or a
      default one. */
  function AfterPost(m: Modal, result: PostResult): (r: Modal)
    ensures !r.loading
    ensures result.Created? ==> r.form == Blank() && r.error == "" && r.closed
    ensures result.PostFailed? ==> r.form == m.form && r.closed == m.closed
    ensures result.PostFailed? ==> r.error == TruthyOr(result.message, CreateFailedMessage) && r.error != ""
  {
    match result
    case Created(_) => Reset(m).(closed := true, loading := false)
    case PostFailed(msg) => m.(error := TruthyOr(msg, CreateFailedMessage), loading := false)
  }

  /** A member is only ever created from a form that passed validation, and
      the next form starts blank. */
  lemma CreatedOnlyWhenValid(m: Modal, row: Member)
    ensures var s := HandleSubmit(m);
      s.post.Some? ==> RequiredFilled(s.post.value) && AfterPost(s.state, Created(row)).form == Blank()
  {
  }

  /** This dialog's own `getPeriodeKepengurusan`: the empty string, not the
      dash, for a blank start date. */
  function PeriodOf(start: StartDate): (text: string)
    ensures text == "" <==> start.Blank?
    ensures !start.Blank? ==> text == PeriodLabel(start)
    ensures start.On? && start.date.year >= 0 ==>
      ParseSpan(text) == Some((start.date.year, start.date.year + 1))
  {
    if start.Blank? then "" else PeriodLabel(start)
  }

  /** The period under the start date: the page only calls `PeriodOf` for a
      filled date and writes the dash otherwise, so the empty string never
      shows; the date read is the form's. */
  function Period(m: Modal, date: string -> Option<Date>): (text: string)
    ensures text == "-" <==> !Filled(m.form, TanggalMulai)
    ensures text != ""
    ensures Filled(m.form, TanggalMulai) ==> text == PeriodOf(StartOf(m.form, date))
  {
    if !Filled(m.form, TanggalMulai) then "-" else PeriodOf(StartOf(m.form, date))
  }
}
