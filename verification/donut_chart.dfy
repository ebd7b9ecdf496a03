/** The donut chart of active members per division. It counts, per division
    name, the records whose division is not "BPH" and whose membership status
    is exactly "Aktif", turns the counts into chart entries and sums them. */
module DonutChart {
  import opened Records
  import opened Seqs

  /** The six-colour palette the chart cycles through. */
  const Colors: seq<string> := ["#8884d8", "#82ca9d", "#ffc658", "#ff8042", "#00C49F", "#FFBB28"]

  /** `anggota.divisi` used as an object key: `undefined` becomes "undefined"
      and `null` becomes "null". */
  function DivisiKey(r: Member): string {
    if Divisi !in r then "undefined"
    else match r[Divisi]
      case None => "null"
      case Some(s) => s
  }

  /** The counting test: strict comparisons, so "bph" or "aktif" do not match. */
  predicate Counted(r: Member) {
    Get(r, Divisi) != Some("BPH") && Get(r, StatusKeanggotaan) == Some("Aktif")
  }

  /** Counted records whose division key is `k`. */
  function CountFor(rows: seq<Member>, k: string): nat {
    Count(rows, r => Counted(r) && DivisiKey(r) == k)
  }

  datatype Entry = Entry(name: string, value: nat)

  predicate DistinctNames(acc: seq<Entry>) {
    forall i, j :: 0 <= i < j < |acc| ==> acc[i].name != acc[j].name
  }

  predicate Positive(acc: seq<Entry>) {
    forall i :: 0 <= i < |acc| ==> acc[i].value >= 1
  }

  /** `acc[k]`, with a missing key read as 0 (the `|| 0` of the reducer). */
  function ValueOf(acc: seq<Entry>, k: string): nat {
    if acc == [] then 0
    else if acc[0].name == k then acc[0].value
    else ValueOf(acc[1..], k)
  }

  /** `chartData.reduce((sum, item) => sum + item.value, 0)`. */
  function Sum(acc: seq<Entry>): nat {
    if acc == [] then 0 else acc[0].value + Sum(acc[1..])
  }

  /** `acc[k] = (acc[k] || 0) + 1`: an existing key keeps its place, a new key
      is appended, as object keys keep insertion order. */
  function Bump(acc: seq<Entry>, k: string): (r: seq<Entry>)
    requires DistinctNames(acc)
    ensures DistinctNames(r)
    ensures Positive(acc) ==> Positive(r)
    ensures |r| == |acc| || (|r| == |acc| + 1 && r[|acc|] == Entry(k, 1))
    ensures forall i :: 0 <= i < |acc| ==> r[i].name == acc[i].name
  {
    if acc == [] then [Entry(k, 1)]
    else if acc[0].name == k then [Entry(k, acc[0].value + 1)] + acc[1..]
    else
      var rest := Bump(acc[1..], k);
      var r := [acc[0]] + rest;
      assert forall i :: 1 <= i < |r| ==> r[i] == rest[i - 1];
      assert forall i :: 0 < i < |acc| ==> acc[i] == acc[1..][i - 1];
      r
  }

  /** Bumping `k` adds one to its count, leaves every other count alone, and
      adds one to the total. */
  lemma {:induction false} BumpCounts(acc: seq<Entry>, k: string)
    requires DistinctNames(acc)
    ensures forall j :: ValueOf(Bump(acc, k), j) == ValueOf(acc, j) + (if j == k then 1 else 0)
    ensures Sum(Bump(acc, k)) == Sum(acc) + 1
    decreases |acc|
  {
    var r := Bump(acc, k);
    if acc != [] {
      if acc[0].name == k {
        assert r[1..] == acc[1..];
      } else {
        assert DistinctNames(acc[1..]);
        BumpCounts(acc[1..], k);
        assert r[1..] == Bump(acc[1..], k);
      }
    }
  }

  /** The `divisiCount` reducer, folded left to right over the response rows. */
  function Tally(rows: seq<Member>): (r: seq<Entry>)
    ensures DistinctNames(r) && Positive(r)
    ensures forall k :: ValueOf(r, k) == CountFor(rows, k)
    ensures Sum(r) == Count(rows, Counted)
    decreases |rows|
  {
    if rows == [] then []
    else
      var acc := Tally(rows[..|rows| - 1]);
      var last := rows[|rows| - 1];
      if Counted(last) then BumpCounts(acc, DivisiKey(last)); Bump(acc, DivisiKey(last)) else acc
  }

  /** In a list with distinct names, looking up an entry's name finds that entry. */
  lemma {:induction false} ValueOfEntry(acc: seq<Entry>, i: nat)
    requires DistinctNames(acc) && i < |acc|
    ensures ValueOf(acc, acc[i].name) == acc[i].value
    decreases i
  {
    if i > 0 {
      assert acc[0].name != acc[i].name;
      assert acc[1..][i - 1] == acc[i];
      ValueOfEntry(acc[1..], i - 1);
    }
  }

  /** A name with a positive value is the name of some entry. */
  lemma {:induction false} ValueOfHasEntry(acc: seq<Entry>, k: string)
    requires ValueOf(acc, k) > 0
    ensures exists i :: 0 <= i < |acc| && acc[i].name == k
    decreases |acc|
  {
    if acc[0].name != k {
      ValueOfHasEntry(acc[1..], k);
      var i :| 0 <= i < |acc[1..]| && acc[1..][i].name == k;
      assert acc[i + 1].name == k;
    }
  }

  /** No record with division "BPH" is ever counted. */
  lemma BphNeverCounted(rows: seq<Member>)
    ensures CountFor(rows, "BPH") == 0
  {
    CountNone(rows, r => Counted(r) && DivisiKey(r) == "BPH");
  }

  /** The chart entries: each names a division, has as value the number of
      counted records of that division (at least one), names are distinct,
      none is "BPH", and every division with a counted record has an entry. */
  lemma ChartEntries(rows: seq<Member>)
    ensures var entries := Tally(rows);
      && DistinctNames(entries)
      && (forall i :: 0 <= i < |entries| ==>
            entries[i].value == CountFor(rows, entries[i].name) && entries[i].value >= 1
            && entries[i].name != "BPH")
      && (forall k :: CountFor(rows, k) > 0 ==> exists i :: 0 <= i < |entries| && entries[i].name == k)
  {
    var entries := Tally(rows);
    forall i | 0 <= i < |entries|
      ensures entries[i].value == CountFor(rows, entries[i].name) && entries[i].name != "BPH"
    {
      ValueOfEntry(entries, i);
      BphNeverCounted(rows);
    }
    forall k | CountFor(rows, k) > 0
      ensures exists i :: 0 <= i < |entries| && entries[i].name == k
    {
      ValueOfHasEntry(entries, k);
    }
  }

  /** The total shown in the header equals the number of counted records,
      which is at most the number of rows fetched. */
  lemma TotalCountsRecords(rows: seq<Member>)
    ensures Sum(Tally(rows)) == Count(rows, Counted) <= |rows|
  {
  }

  lemma {:induction false} SumZeroIffEmpty(acc: seq<Entry>)
    requires Positive(acc)
    ensures Sum(acc) == 0 <==> acc == []
  {
    if acc != [] {
      assert acc[0].value >= 1;
    }
  }

  /** The colour of the `index`-th slice: `COLORS[index % COLORS.length]`. */
  function ColorIndex(index: nat): (c: nat)
    ensures c < |Colors|
    ensures index < |Colors| ==> c == index
  {
    index % |Colors|
  }

  /** The colour index is the same six slices further on. */
  lemma ColorIndexPeriodic(i: nat)
    ensures ColorIndex(i + |Colors|) == ColorIndex(i)
  {
    assert |Colors| == 6;
  }

  /** One palette colour per entry: the first six slices take the palette in
      order, and from then on it repeats every six slices. */
  function CellColors(entries: seq<Entry>): (fills: seq<string>)
    ensures |fills| == |entries|
    ensures forall i :: 0 <= i < |fills| ==> fills[i] in Colors
    ensures forall i :: 0 <= i < |fills| && i < |Colors| ==> fills[i] == Colors[i]
    ensures forall i :: 0 <= i < |fills| - |Colors| ==> fills[i] == fills[i + |Colors|]
  {
    var fills := seq(|entries|, i requires 0 <= i < |entries| => Colors[ColorIndex(i)]);
    assert forall i :: 0 <= i < |fills| ==> fills[i] == Colors[ColorIndex(i)];
    assert forall i: nat :: ColorIndex(i + |Colors|) == ColorIndex(i) by {
      forall i: nat ensures ColorIndex(i + |Colors|) == ColorIndex(i) {
        ColorIndexPeriodic(i);
      }
    }
    fills
  }

  // ---------------------------------------------------------------------
  // What the component shows after fetching

  datatype Fetch = Rows(rows: seq<Member>) | FetchFailed

  datatype View =
    | ShowError(message: string)
    | NoActiveMembers
    | Chart(entries: seq<Entry>, total: nat, fills: seq<string>)

  /** The error text, the empty-state text, or the chart with its total. */
  function Load(f: Fetch): (v: View)
    ensures f.FetchFailed? <==> v == ShowError("Gagal memuat data anggota")
    ensures f.Rows? ==> (v.NoActiveMembers? <==> Count(f.rows, Counted) == 0)
    ensures v.Chart? ==> v.total == Count(f.rows, Counted) && v.total >= 1 && |v.fills| == |v.entries|
    ensures v.Chart? ==> f.Rows? && v.entries == Tally(f.rows) && v.fills == CellColors(v.entries)
  {
    match f
    case FetchFailed => ShowError("Gagal memuat data anggota")
    case Rows(rows) =>
      var entries := Tally(rows);
      SumZeroIffEmpty(entries);
      if |entries| == 0 then NoActiveMembers else Chart(entries, Sum(entries), CellColors(entries))
  }
}
