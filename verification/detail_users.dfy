/** The read-only member detail dialog: every field shown with a dash
    fallback, a WhatsApp link for a phone number, and coloured badges for
    membership status and sanction. */
module DetailUsers {
  import opened Records
  import opened Text
  import DonutChart

  datatype Cell = Link(href: string) | Dash

  /** The WhatsApp cell: a chat link when the record has a phone number, the
      dash otherwise. */
  function WhatsAppCell(m: Member): (c: Cell)
    ensures c.Link? <==> Filled(m, NomorTelepon)
    ensures c.Link? ==> c.href == WhatsAppHref(m[NomorTelepon].value)
  {
    if Filled(m, NomorTelepon) then Link(WhatsAppHref(Get(m, NomorTelepon).value)) else Dash
  }

  datatype Tone = Green | Red | Yellow

  /** `m.f?.toLowerCase() === lit`: false for a missing or null field. */
  predicate LowerIs(m: Member, f: string, lit: string) {
    Get(m, f).Some? && Lower(Get(m, f).value) == lit
  }

  /** The status badge is green for "aktif" in any letter case, red otherwise. */
  function StatusTone(m: Member): (t: Tone)
    ensures t == Green <==> LowerIs(m, StatusKeanggotaan, "aktif")
    ensures t != Yellow
  {
    if LowerIs(m, StatusKeanggotaan, "aktif") then Green else Red
  }

  /** The sanction badge is green for "baik" in any letter case, yellow otherwise. */
  function SanksiTone(m: Member): (t: Tone)
    ensures t == Green <==> LowerIs(m, Sanksi, "baik")
    ensures t != Red
  {
    if LowerIs(m, Sanksi, "baik") then Green else Yellow
  }

  /** Records whose field values differ only in letter case get the same badges. */
  lemma BadgesIgnoreCase(a: Member, b: Member)
    requires forall f :: f in {StatusKeanggotaan, Sanksi} ==>
      (Get(a, f).Some? <==> Get(b, f).Some?) &&
      (Get(a, f).Some? ==> Lower(Get(a, f).value) == Lower(Get(b, f).value))
    ensures StatusTone(a) == StatusTone(b) && SanksiTone(a) == SanksiTone(b)
  {
    assert StatusKeanggotaan in {StatusKeanggotaan, Sanksi};
    assert Sanksi in {StatusKeanggotaan, Sanksi};
  }

  /** Every record the donut chart counts gets a green status badge; the
      converse fails, since the chart's test is case-sensitive. */
  lemma ChartCountsOnlyGreen(m: Member)
    ensures DonutChart.Counted(m) ==> StatusTone(m) == Green
  {
    if DonutChart.Counted(m) {
      assert Lower("Aktif") == "aktif";
    }
  }

  lemma GreenButNotCounted()
    ensures var m := map[StatusKeanggotaan := Some("aktif")];
      StatusTone(m) == Green && !DonutChart.Counted(m)
  {
    var m: Member := map[StatusKeanggotaan := Some("aktif")];
    assert Lower("aktif") == "aktif";
  }
}
