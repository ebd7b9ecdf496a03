/** The member list view: search-as-you-type over four fields and client-side
    pagination in pages of ten. */
module UsersTable {
  import opened Records
  import opened Text
  import opened Seqs

  const ItemsPerPage := 10

  /** `anggota.f?.toLowerCase().includes(term)`: an absent or null field never matches. */
  predicate FieldMatches(r: Member, f: string, term: string) {
    Get(r, f).Some? && Includes(Lower(Get(r, f).value), term)
  }

  /** The search rule for an already lower-cased term: name, NPM, division or role. */
  predicate Keeps(r: Member, term: string) {
    || FieldMatches(r, NamaAnggota, term)
    || FieldMatches(r, Npm, term)
    || FieldMatches(r, Divisi, term)
    || FieldMatches(r, Jabatan, term)
  }

  /** The search box: the term is lower-cased once, then
      `data.filter(anggota => Keeps(anggota, term))`. */
  function Search(data: seq<Member>, raw: string): seq<Member> {
    Filter(data, r => Keeps(r, Lower(raw)))
  }

  /** Search keeps exactly the matching records, as a subsequence of `data` in
      their original order. */
  lemma SearchIsOrderedSubsequence(data: seq<Member>, raw: string)
    ensures var idx := KeptIndices(data, r => Keeps(r, Lower(raw)));
      && |Search(data, raw)| == |idx|
      && (forall k :: 0 <= k < |idx| ==> Search(data, raw)[k] == data[idx[k]])
      && (forall k, l :: 0 <= k < l < |idx| ==> idx[k] < idx[l])
      && (forall i :: 0 <= i < |data| ==> (i in idx <==> Keeps(data[i], Lower(raw))))
  {
    FilterIsOrderedSubsequence(data, r => Keeps(r, Lower(raw)));
  }

  /** Matching ignores case in the typed term. */
  lemma SearchIgnoresTermCase(data: seq<Member>, raw1: string, raw2: string)
    requires Lower(raw1) == Lower(raw2)
    ensures Search(data, raw1) == Search(data, raw2)
  {
  }

  /** Matching ignores case in the record: two records whose four searched
      fields agree after lower-casing are kept or dropped together. */
  lemma KeepsIgnoresFieldCase(r1: Member, r2: Member, raw: string)
    requires forall f :: f in [NamaAnggota, Npm, Divisi, Jabatan] ==>
      (Get(r1, f).Some? <==> Get(r2, f).Some?) &&
      (Get(r1, f).Some? ==> Lower(Get(r1, f).value) == Lower(Get(r2, f).value))
    ensures Keeps(r1, Lower(raw)) <==> Keeps(r2, Lower(raw))
  {
    assert NamaAnggota in [NamaAnggota, Npm, Divisi, Jabatan];
    assert Npm in [NamaAnggota, Npm, Divisi, Jabatan];
    assert Divisi in [NamaAnggota, Npm, Divisi, Jabatan];
    assert Jabatan in [NamaAnggota, Npm, Divisi, Jabatan];
  }

  /** An empty search keeps exactly the records that carry at least one of the
      four fields (an empty string counts; undefined and null do not). */
  lemma EmptyTermKeepsPresentRecords(r: Member)
    ensures Keeps(r, "") <==>
      Get(r, NamaAnggota).Some? || Get(r, Npm).Some? || Get(r, Divisi).Some? || Get(r, Jabatan).Some?
  {
    forall f | Get(r, f).Some? ensures FieldMatches(r, f, "") {
      EmptyIncluded(Lower(Get(r, f).value));
    }
  }

  // ---------------------------------------------------------------------
  // Pagination

  /** `Math.ceil(n / itemsPerPage)`. */
  function TotalPages(n: nat): (r: nat)
    ensures (r - 1) * ItemsPerPage < n <= r * ItemsPerPage
    ensures r == 0 <==> n == 0
  {
    (n + ItemsPerPage - 1) / ItemsPerPage
  }

  function Min(a: int, b: int): int { if a <= b then a else b }

  /** `filtered.slice((p - 1) * 10, p * 10)`; a start past the end gives []. */
  function PageSlice(f: seq<Member>, p: int): (r: seq<Member>)
    requires p >= 1
    ensures |r| <= ItemsPerPage
    ensures (p - 1) * ItemsPerPage >= |f| ==> r == []
    ensures (p - 1) * ItemsPerPage < |f| ==> |r| == Min(ItemsPerPage, |f| - (p - 1) * ItemsPerPage)
    ensures forall k :: 0 <= k < |r| ==> (p - 1) * ItemsPerPage + k < |f| && r[k] == f[(p - 1) * ItemsPerPage + k]
  {
    var first := (p - 1) * ItemsPerPage;
    if first >= |f| then [] else f[first..Min(p * ItemsPerPage, |f|)]
  }

  /** Pages `1 .. last` laid end to end. */
  function PagesUpTo(f: seq<Member>, last: nat): seq<Member> {
    if last == 0 then [] else PagesUpTo(f, last - 1) + PageSlice(f, last)
  }

  lemma {:induction false} PagesUpToIsPrefix(f: seq<Member>, last: nat)
    ensures PagesUpTo(f, last) == f[..Min(last * ItemsPerPage, |f|)]
  {
    if last > 0 {
      PagesUpToIsPrefix(f, last - 1);
      var a := Min((last - 1) * ItemsPerPage, |f|);
      var b := Min(last * ItemsPerPage, |f|);
      if (last - 1) * ItemsPerPage < |f| {
        assert PageSlice(f, last) == f[a..b];
        assert f[..a] + f[a..b] == f[..b];
      } else {
        assert a == b;
      }
    }
  }

  /** The page buttons 1 .. totalPages, laid end to end, show the filtered list
      exactly: no record is left out, repeated or reordered. */
  lemma PagesPartitionList(f: seq<Member>)
    ensures PagesUpTo(f, TotalPages(|f|)) == f
  {
    PagesUpToIsPrefix(f, TotalPages(|f|));
  }

  /** The one page whose slice holds position `i` of the filtered list. */
  function PageOf(i: nat): (p: nat)
    ensures p >= 1
    ensures (p - 1) * ItemsPerPage <= i < p * ItemsPerPage
  {
    i / ItemsPerPage + 1
  }

  /** Each filtered record sits on exactly one page, and that page has a button. */
  lemma EachRecordOnOnePage(f: seq<Member>, i: nat, p: int)
    requires i < |f| && p >= 1
    ensures 1 <= PageOf(i) <= TotalPages(|f|)
    ensures (p - 1) * ItemsPerPage <= i < p * ItemsPerPage <==> p == PageOf(i)
    ensures p == PageOf(i) ==> PageSlice(f, p)[i - (p - 1) * ItemsPerPage] == f[i]
  {
  }

  /** The footer "Menampilkan lo-hi dari n anggota". */
  function Footer(f: seq<Member>, p: int): (lohi: (int, int))
    requires p >= 1
    ensures lohi.1 <= |f|
    ensures |PageSlice(f, p)| == if lohi.1 >= lohi.0 then lohi.1 - lohi.0 + 1 else 0
  {
    ((p - 1) * ItemsPerPage + 1, Min(p * ItemsPerPage, |f|))
  }

  // ---------------------------------------------------------------------
  // View state

  datatype Table = Table(data: seq<Member>, filtered: seq<Member>, searchTerm: string, currentPage: int)

  /** The state after the member list arrives: both lists become the rows, and
      whatever is already in the search box and the page stay as they were. */
  function Loaded(t: Table, rows: seq<Member>): (t': Table)
    ensures t'.filtered == t'.data == rows
    ensures t'.searchTerm == t.searchTerm && t'.currentPage == t.currentPage
  {
    t.(data := rows, filtered := rows)
  }

  /** A term typed before the list arrived is not applied to it: the shown
      list agrees with the search box only when every row matches the term. */
  lemma LoadedIgnoresTypedTerm(t: Table, rows: seq<Member>)
    ensures Loaded(t, rows).filtered == Search(rows, t.searchTerm) <==>
      forall i :: 0 <= i < |rows| ==> Keeps(rows[i], Lower(t.searchTerm))
  {
    FilterKeepsAll(rows, r => Keeps(r, Lower(t.searchTerm)));
  }

  /** A row that does not match the typed term is still shown after loading. */
  lemma LoadedShowsNonMatchingRow()
    ensures var t := Table([], [], "zz", 1);
      var rows := [map[NamaAnggota := Some("Ani")]];
      && !Keeps(rows[0], Lower(t.searchTerm))
      && Loaded(t, rows).filtered == rows
      && Search(rows, t.searchTerm) == []
  {
    var t := Table([], [], "zz", 1);
    var rows := [map[NamaAnggota := Some("Ani")]];
    LoadedIgnoresTypedTerm(t, rows);
    assert !Includes("ani", "zz");
  }

  function CurrentItems(t: Table): seq<Member>
    requires t.currentPage >= 1
  {
    PageSlice(t.filtered, t.currentPage)
  }

  /** `handleSearch`: recompute the filtered list from the full data; the page is not reset. */
  function HandleSearch(t: Table, raw: string): (t': Table)
    ensures t'.data == t.data && t'.currentPage == t.currentPage
    ensures t'.searchTerm == Lower(raw)
    ensures forall x :: x in t'.filtered <==> x in t.data && Keeps(x, Lower(raw))
  {
    Table(t.data, Search(t.data, raw), Lower(raw), t.currentPage)
  }

  /** The stored term is already lower-cased, so searching again with it
      changes nothing. */
  lemma SearchTermIsStable(t: Table, raw: string)
    ensures var t' := HandleSearch(t, raw);
      HandleSearch(t', t'.searchTerm) == t'
  {
    LowerIdempotent(raw);
  }

  /** The result of a search depends on the full data only, never on the list
      an earlier search left behind. */
  lemma SearchForgetsEarlierFilter(t1: Table, t2: Table, raw: string)
    requires t1.data == t2.data && t1.currentPage == t2.currentPage
    ensures HandleSearch(t1, raw) == HandleSearch(t2, raw)
  {
  }

  /** Because the page is kept, a search that leaves ten or fewer records
      shows an empty page when the user was on page 2 or later. */
  lemma NarrowedSearchCanShowEmptyPage(t: Table, raw: string)
    requires t.currentPage >= 2
    requires |Search(t.data, raw)| <= ItemsPerPage
    ensures CurrentItems(HandleSearch(t, raw)) == []
  {
  }

  predicate PrevDisabled(t: Table) { t.currentPage == 1 }

  predicate NextDisabled(t: Table) { t.currentPage == TotalPages(|t.filtered|) }

  function GoToPage(t: Table, n: int): Table { t.(currentPage := n) }

  /** The "Previous" button: ignored while disabled. */
  function Previous(t: Table): (t': Table)
    ensures t.currentPage >= 1 ==> t'.currentPage >= 1
    ensures PrevDisabled(t) <==> t' == t
  {
    if PrevDisabled(t) then t else GoToPage(t, t.currentPage - 1)
  }

  /** The "Next" button: ignored while disabled. */
  function Next(t: Table): (t': Table)
    ensures t.currentPage >= 1 ==> t'.currentPage >= 1
    ensures NextDisabled(t) <==> t' == t
  {
    if NextDisabled(t) then t else GoToPage(t, t.currentPage + 1)
  }

  /** Within the page range, "Next" stays within it. */
  lemma NextStaysInRange(t: Table)
    requires 1 <= t.currentPage <= TotalPages(|t.filtered|)
    ensures 1 <= Next(t).currentPage <= TotalPages(|t.filtered|)
  {
  }

  /** "Previous" is disabled exactly on page 1, "Next" exactly on the last
      page; with nothing to show there is no last page, so "Next" stays
      enabled and walks to empty pages. */
  lemma NavigationEnablement(t: Table)
    requires t.currentPage >= 1
    ensures Previous(t) == t <==> t.currentPage == 1
    ensures Next(t) == t <==> t.currentPage == TotalPages(|t.filtered|)
    ensures |t.filtered| == 0 ==> !NextDisabled(t) && Next(t).currentPage == t.currentPage + 1
    ensures |t.filtered| == 0 ==> CurrentItems(Next(t)) == []
  {
  }
}
