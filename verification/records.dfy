/** Member records as the dashboard's client code sees them.

    A member ("anggota") row arrives as a JavaScript object whose fields are
    strings. The model keeps it as a map from field name to an optional
    string: a key that is absent stands for `undefined`, a key mapped to
    `None` stands for `null` (SQL NULL coming from the server). */
module Records {

  datatype Option<+T> = None | Some(value: T) {
    function GetOr(default: T): T {
      match this
      case Some(v) => v
      case None => default
    }
  }

  type Member = map<string, Option<string>>

  // Field names of the `data_anggota` table used by the core rules.
  const NamaAnggota := "nama_anggota"
  const Npm := "npm"
  const Divisi := "divisi"
  const Jabatan := "jabatan"
  const Email := "email"
  const NomorTelepon := "nomor_telepon"
  const StatusKeanggotaan := "status_keanggotaan"
  const Sanksi := "sanksi"
  const KotaKabupaten := "kota_kabupaten"
  const Provinsi := "provinsi"
  const TanggalMulai := "tanggal_mulai_kepengurusan"
  const TanggalSanksi := "tanggal_sanksi"
  const TanggalPerbaikan := "tanggal_perbaikan"

  /** The fields shown through a date formatter rather than as plain text. */
  const DateFields := {TanggalMulai, TanggalSanksi, TanggalPerbaikan}

  /** `m.f`, with `undefined` and `null` both read as `None`. */
  function Get(m: Member, f: string): (r: Option<string>)
    ensures r.Some? <==> f in m && m[f].Some?
    ensures r.Some? ==> r.value == m[f].value
  {
    if f in m then m[f] else None
  }

  /** JavaScript truthiness of a string field: not undefined, not null, not "". */
  predicate Filled(m: Member, f: string) {
    Get(m, f).Some? && Get(m, f).value != ""
  }

  /** The three fields every form requires: name, student number, division. */
  predicate RequiredFilled(m: Member) {
    Filled(m, NamaAnggota) && Filled(m, Npm) && Filled(m, Divisi)
  }

  /** `m.f || "-"`: the value when it is truthy, the dash otherwise. */
  function OrDash(m: Member, f: string): (r: string)
    ensures Filled(m, f) ==> r == m[f].value
    ensures !Filled(m, f) ==> r == "-"
  {
    if Filled(m, f) then Get(m, f).value else "-"
  }

  /** `o || fallback` for an optional string. */
  function TruthyOr(o: Option<string>, fallback: string): (r: string)
    ensures o.Some? && o.value != "" ==> r == o.value
    ensures !(o.Some? && o.value != "") ==> r == fallback
  {
    if o.Some? && o.value != "" then o.value else fallback
  }

  /** `{ ...m, [f]: v }`: the named field becomes `v`, every other key is kept. */
  function Assign(m: Member, f: string, v: string): (r: Member)
    ensures r.Keys == m.Keys + {f}
    ensures Get(r, f) == Some(v)
    ensures forall g :: g in m && g != f ==> r[g] == m[g]
  {
    m[f := Some(v)]
  }

  /** `formatDate`: the dash for an empty date; otherwise the browser's
      long Indonesian date, given here as `render`. */
  function FormatDate(m: Member, f: string, render: string -> string): (text: string)
    ensures !Filled(m, f) ==> text == "-"
    ensures Filled(m, f) ==> text == render(m[f].value)
  {
    if Filled(m, f) then render(Get(m, f).value) else "-"
  }
}
