/** The inline "Tambah Anggota" panel: a button that opens and closes a form,
    checks only the three required fields, and creates the member. Its form
    has no start-date field. */
module TambahButton {
  import opened Records
  import Locations
  import TambahModal
  import Validators

  /** The panel's blank form: the dialog's blank form without the start date. */
  function Blank(): (form: Member)
    ensures TanggalMulai !in form
    ensures form.Keys == TambahModal.Blank().Keys - {TanggalMulai}
    ensures forall f :: f in form ==> form[f] == TambahModal.Blank()[f]
  {
    map[
      NamaAnggota := Some(""), Npm := Some(""), "kategori_kelas" := Some(""),
      "kelas" := Some(""), "angkatan" := Some(""), Divisi := Some(""),
      Jabatan := Some(""), "jenis_kelamin" := Some(""), KotaKabupaten := Some(""),
      Provinsi := Some(""), Email := Some(""), NomorTelepon := Some(""),
      StatusKeanggotaan := Some("Aktif"), Sanksi := Some("Baik"),
      TanggalSanksi := Some(""), "alasan_sanksi" := Some(""),
      TanggalPerbaikan := Some(""), "tindakan_perbaikan" := Some(""),
      "status_tindak_lanjut_sanksi" := Some("")]
  }

  datatype Panel = Panel(
    form: Member,    // `formData`
    open: bool,      // `isFormOpen`
    loading: bool,   // `isLoading`
    error: string)   // `formError`

  function Initial(): Panel {
    Panel(Blank(), false, false, "")
  }

  /** `toggleForm`: opening keeps whatever was typed; closing discards it. */
  function ToggleForm(p: Panel): (r: Panel)
    ensures r.open == !p.open && r.loading == p.loading
    ensures p.open ==> r.form == Blank() && r.error == ""
    ensures !p.open ==> r.form == p.form && r.error == p.error
  {
    if p.open then p.(open := false, form := Blank(), error := "")
    else p.(open := true)
  }

  /** Closing and opening again always shows the blank form. */
  lemma ReopenStartsBlank(p: Panel)
    requires p.open
    ensures var q := ToggleForm(ToggleForm(p)); q.open && q.form == Blank() && q.error == ""
  {
  }

  /** `handleChange`: the shared city-to-province rule; changing a field the
      form already has keeps its set of fields. */
  function HandleChange(p: Panel, name: string, value: string, mapping: Locations.LocationMapping): (r: Panel)
    ensures r.form == Locations.HandleChange(p.form, name, value, mapping)
    ensures name in p.form && Provinsi in p.form ==> r.form.Keys == p.form.Keys
    ensures r.(form := p.form) == p
  {
    p.(form := Locations.HandleChange(p.form, name, value, mapping))
  }

  datatype SubmitStep = SubmitStep(state: Panel, post: Option<Member>)

  /** `handleSubmit` up to the request: only the required fields are
      checked; the e-mail and phone number go out as typed. */
  function HandleSubmit(p: Panel): (s: SubmitStep)
    ensures s.post.Some? <==> RequiredFilled(p.form)
    ensures s.post.Some? ==> s.post.value == p.form && s.state.loading && s.state.error == ""
    ensures s.post.None? ==> !s.state.loading && s.state.error == TambahModal.RequiredMessage
    ensures s.state.form == p.form && s.state.open == p.open
  {
    if RequiredFilled(p.form) then SubmitStep(p.(loading := true, error := ""), Some(p.form))
    else SubmitStep(p.(loading := false, error := TambahModal.RequiredMessage), None)
  }

  /** After the request: a created member resets and closes the panel; a
      failure shows the server's message or the default one. */
  function AfterPost(p: Panel, result: TambahModal.PostResult): (r: Panel)
    ensures !r.loading
    ensures result.Created? ==> r == Initial()
    ensures result.PostFailed? ==> r.form == p.form && r.open == p.open
    ensures result.PostFailed? ==> r.error == TruthyOr(result.message, TambahModal.CreateFailedMessage) && r.error != ""
  {
    match result
    case Created(_) => Panel(Blank(), false, false, "")
    case PostFailed(msg) => p.(error := TruthyOr(msg, TambahModal.CreateFailedMessage), loading := false)
  }

  /** The panel sends every form the dialog would send, and more: it also
      sends forms whose e-mail or phone number the dialog rejects. */
  lemma LooserThanDialog(p: Panel, m: TambahModal.Modal)
    requires p.form == m.form
    ensures TambahModal.HandleSubmit(m).post.Some? ==> HandleSubmit(p).post.Some?
    ensures HandleSubmit(p).post.Some? && !TambahModal.HandleSubmit(m).post.Some? ==>
      TambahModal.BadEmail(p.form) || TambahModal.BadPhone(p.form)
  {
  }

  /** A form with e-mail "x" is sent by the panel but stopped by the dialog. */
  lemma PanelSendsUncheckedEmail()
    ensures var form := map[NamaAnggota := Some("Ani"), Npm := Some("1"), Divisi := Some("PR"), Email := Some("x")];
      && HandleSubmit(Panel(form, true, false, "")).post == Some(form)
      && TambahModal.ValidateForm(form) == TambahModal.Fail(TambahModal.EmailMessage)
  {
    var form: Member := map[NamaAnggota := Some("Ani"), Npm := Some("1"), Divisi := Some("PR"), Email := Some("x")];
    assert Get(form, Email) == Some("x");
    assert !Validators.ValidEmail("x");
  }
}
