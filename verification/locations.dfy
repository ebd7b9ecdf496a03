/** The city-to-province lookup both "add member" forms share: picking a city
    fills in its province, and the city drop-down lists the lookup's keys in
    sorted order. The table itself (`locationMapping`) is not part of this
    model; it is any finite map from city to province. */
module Locations {
  import opened Records

  type LocationMapping = map<string, string>

  /** `locationMapping[city] || ""`. */
  function ProvinceOf(mapping: LocationMapping, city: string): (p: string)
    ensures city in mapping ==> p == mapping[city]
    ensures city !in mapping ==> p == ""
  {
    if city in mapping && mapping[city] != "" then mapping[city] else ""
  }

  /** `handleChange` of both add-member forms: the named field takes the new
      value; choosing a city also sets the province from the lookup. */
  function HandleChange(form: Member, name: string, value: string, mapping: LocationMapping): (r: Member)
    ensures Get(r, name) == Some(value)
    ensures name == KotaKabupaten ==> Get(r, Provinsi) == Some(ProvinceOf(mapping, value))
    ensures name != KotaKabupaten ==> r == Assign(form, name, value)
    ensures r.Keys == form.Keys + {name} + (if name == KotaKabupaten then {Provinsi} else {})
    ensures forall g :: g in form && g != name && (name == KotaKabupaten ==> g != Provinsi) ==> r[g] == form[g]
  {
    if name == KotaKabupaten then
      Assign(Assign(form, name, value), Provinsi, ProvinceOf(mapping, value))
    else
      Assign(form, name, value)
  }

  // ---------------------------------------------------------------------
  // City options: `Object.keys(locationMapping).sort()`

  /** The default order of `Array.prototype.sort`: compare strings character by character. */
  predicate Less(a: string, b: string)
    decreases |a|
  {
    if a == [] then b != []
    else if b == [] then false
    else if a[0] != b[0] then a[0] < b[0]
    else Less(a[1..], b[1..])
  }

  lemma {:induction false} LessIrreflexive(a: string)
    ensures !Less(a, a)
    decreases |a|
  {
    if a != [] {
      LessIrreflexive(a[1..]);
    }
  }

  lemma {:induction false} LessTransitive(a: string, b: string, c: string)
    requires Less(a, b) && Less(b, c)
    ensures Less(a, c)
    decreases |a|
  {
    if a != [] && b != [] && c != [] && a[0] == b[0] && b[0] == c[0] {
      LessTransitive(a[1..], b[1..], c[1..]);
    }
  }

  lemma {:induction false} LessTotal(a: string, b: string)
    requires a != b
    ensures Less(a, b) || Less(b, a)
    decreases |a|
  {
    if a != [] && b != [] && a[0] == b[0] {
      assert a == [a[0]] + a[1..] && b == [b[0]] + b[1..];
      LessTotal(a[1..], b[1..]);
    }
  }

  predicate Sorted(s: seq<string>) {
    forall i, j :: 0 <= i < j < |s| ==> Less(s[i], s[j])
  }

  /** Inserts a new key into a sorted list at its place. */
  function Insert(x: string, s: seq<string>): (r: seq<string>)
    requires Sorted(s) && x !in s
    ensures Sorted(r)
    ensures |r| == |s| + 1
    ensures forall y :: y in r <==> y == x || y in s
    decreases |s|
  {
    if s == [] then [x]
    else if Less(x, s[0]) then
      assert forall j :: 0 < j < |s| ==> Less(x, s[j]) by {
        forall j | 0 < j < |s| ensures Less(x, s[j]) {
          LessTransitive(x, s[0], s[j]);
        }
      }
      [x] + s
    else
      LessTotal(x, s[0]);
      var rest := Insert(x, s[1..]);
      var r := [s[0]] + rest;
      assert forall y :: y in rest ==> Less(s[0], y) by {
        forall y | y in rest ensures Less(s[0], y) {
          if y != x {
            var j :| 0 <= j < |s[1..]| && s[1..][j] == y;
            assert s[j + 1] == y;
          }
        }
      }
      assert forall i :: 0 < i < |r| ==> r[i] == rest[i - 1] && r[i] in rest;
      r
  }

  /** The city drop-down: exactly the lookup's cities, each once, in sorted order. */
  method CityOptions(mapping: LocationMapping) returns (options: seq<string>)
    ensures Sorted(options)
    ensures |options| == |mapping.Keys|
    ensures forall c :: c in options <==> c in mapping
  {
    options := [];
    var rest := mapping.Keys;
    while rest != {}
      invariant Sorted(options)
      invariant forall c :: c in options ==> c !in rest
      invariant forall c :: c in mapping <==> c in options || c in rest
      invariant |options| + |rest| == |mapping.Keys|
      decreases |rest|
    {
      var city :| city in rest;
      options := Insert(city, options);
      rest := rest - {city};
    }
  }

  /** A sorted list holds each city at most once. */
  lemma SortedIsDistinct(s: seq<string>)
    requires Sorted(s)
    ensures forall i, j :: 0 <= i < j < |s| ==> s[i] != s[j]
  {
    forall i, j | 0 <= i < j < |s| ensures s[i] != s[j] {
      LessIrreflexive(s[i]);
    }
  }
}
