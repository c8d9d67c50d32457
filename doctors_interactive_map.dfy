/**
 * The interactive map: the sixteen-field records it loads, its loading
 * state, the specialty and governorate lists ranked by frequency, the
 * count of doctors shown, and the working hours a doctor's popup lists.
 */
module DoctorsInteractiveMap {
  import opened Wrappers
  import opened Strings
  import opened Seqs
  import opened DashboardCsv

  // ---------------------------------------------------------------- records

  /** A doctor with a profile link and one field per day of the week. */
  datatype InteractiveDoctor = InteractiveDoctor(
    url: string,
    name: string,
    specialty: string,
    phone1: string,
    phone2: string,
    address: string,
    x: real,
    y: real,
    presentation: string,
    Lundi: string,
    Mardi: string,
    Mercredi: string,
    Jeudi: string,
    Vendredi: string,
    Samedi: string,
    Dimanche: string)

  /** Token 0 is the link, tokens 1 to 8 the profile fields, tokens 9 to 15 Monday to Sunday. */
  function InteractiveRow(line: string, tokenize: string -> seq<string>, parseNumber: string -> Option<real>)
    : (r: InteractiveDoctor)
    ensures AsProfile(r) == ProfileRow(line, tokenize, parseNumber)
    ensures var t := tokenize(line); r.url == if t != [] then Clean(t[0]) else ""
  {
    var v := CleanValues(line, tokenize);
    InteractiveDoctor(Field(v, 0), Field(v, 1), Field(v, 2), Field(v, 3), Field(v, 4), Field(v, 5),
      Coord(v, 6, parseNumber), Coord(v, 7, parseNumber), Field(v, 8),
      Field(v, 9), Field(v, 10), Field(v, 11), Field(v, 12), Field(v, 13), Field(v, 14), Field(v, 15))
  }

  /** Monday to Sunday are tokens 9 to 15, each `""` when the line is shorter. */
  lemma InteractiveRowDays(line: string, tokenize: string -> seq<string>, parseNumber: string -> Option<real>)
    ensures var t, r := tokenize(line), InteractiveRow(line, tokenize, parseNumber);
      && r.Lundi == (if 9 < |t| then Clean(t[9]) else "")
      && r.Mardi == (if 10 < |t| then Clean(t[10]) else "")
      && r.Mercredi == (if 11 < |t| then Clean(t[11]) else "")
      && r.Jeudi == (if 12 < |t| then Clean(t[12]) else "")
      && r.Vendredi == (if 13 < |t| then Clean(t[13]) else "")
      && r.Samedi == (if 14 < |t| then Clean(t[14]) else "")
      && r.Dimanche == (if 15 < |t| then Clean(t[15]) else "")
  {
  }

  /** The seven day fields, Monday first. */
  function Schedule(d: InteractiveDoctor): (r: seq<string>)
    ensures |r| == 7 && r[0] == d.Lundi && r[6] == d.Dimanche
  {
    [d.Lundi, d.Mardi, d.Mercredi, d.Jeudi, d.Vendredi, d.Samedi, d.Dimanche]
  }

  /** The profile record of the same line: the fields both maps read. */
  function AsProfile(d: InteractiveDoctor): ProfileDoctor {
    ProfileDoctor(d.name, d.specialty, d.phone1, d.phone2, d.address, d.x, d.y, d.presentation, d.Lundi)
  }

  predicate Located(d: InteractiveDoctor) {
    HasCoordinates(d.x, d.y)
  }

  /** One record per data line, in order, before the coordinate test. */
  function InteractiveRows(csv: string, tokenize: string -> seq<string>, parseNumber: string -> Option<real>)
    : (rows: seq<InteractiveDoctor>)
    ensures |rows| == |DataLines(csv)|
    ensures forall k :: 0 <= k < |rows| ==> rows[k] == InteractiveRow(DataLines(csv)[k], tokenize, parseNumber)
  {
    var lines := DataLines(csv);
    seq(|lines|, k requires 0 <= k < |lines| => InteractiveRow(lines[k], tokenize, parseNumber))
  }

  /** The doctors a CSV text yields. */
  function InteractiveDoctors(csv: string, tokenize: string -> seq<string>, parseNumber: string -> Option<real>)
    : (ds: seq<InteractiveDoctor>)
    ensures |ds| <= |DataLines(csv)|
  {
    Filter(InteractiveRows(csv, tokenize, parseNumber), Located)
  }

  /** A record is loaded exactly when both its coordinates are non-zero, and file order is kept. */
  lemma InteractiveDoctorsSpec(csv: string, tokenize: string -> seq<string>, parseNumber: string -> Option<real>)
    ensures IsSubsequence(InteractiveDoctors(csv, tokenize, parseNumber), InteractiveRows(csv, tokenize, parseNumber))
    ensures forall d :: (d in InteractiveDoctors(csv, tokenize, parseNumber) <==>
                            d in InteractiveRows(csv, tokenize, parseNumber) && HasCoordinates(d.x, d.y))
  {
    FilterSpec(InteractiveRows(csv, tokenize, parseNumber), Located);
  }

  /** The profile records of `rows`, in order. */
  function Profiles(rows: seq<InteractiveDoctor>): (r: seq<ProfileDoctor>)
    ensures |r| == |rows| && forall k :: 0 <= k < |r| ==> r[k] == AsProfile(rows[k])
  {
    seq(|rows|, k requires 0 <= k < |rows| => AsProfile(rows[k]))
  }

  lemma {:induction false} FilterProfiles(rows: seq<InteractiveDoctor>)
    ensures Profiles(Filter(rows, Located)) == Filter(Profiles(rows), ProfileLocated)
    decreases |rows|
  {
    if rows != [] {
      FilterProfiles(rows[1..]);
      assert Profiles(rows)[1..] == Profiles(rows[1..]);
      var head := if Located(rows[0]) then [rows[0]] else [];
      assert Profiles(head + Filter(rows[1..], Located)) == Profiles(head) + Profiles(Filter(rows[1..], Located));
    }
  }

  /** The interactive map and the profile map load the same doctors from the same file, in the same order. */
  lemma SameDoctorsAsProfileMap(csv: string, tokenize: string -> seq<string>, parseNumber: string -> Option<real>)
    ensures Profiles(InteractiveDoctors(csv, tokenize, parseNumber)) == ProfileDoctors(csv, tokenize, parseNumber)
  {
    var rows := InteractiveRows(csv, tokenize, parseNumber);
    FilterProfiles(rows);
    assert Profiles(rows) == ProfileRows(csv, tokenize, parseNumber);
  }

  // ---------------------------------------------------------------- loading

  /** The message shown when the file cannot be read. */
  const LoadFailure: string := "Failed to load doctor data"

  /** What the fetch of the CSV file gives: a rejection, or a response with its status and text. */
  datatype CsvResponse = Unreachable | Response(ok: bool, text: string)

  class InteractiveMap {
    var doctors: seq<InteractiveDoctor>
    var loading: bool
    var error: Option<string>

    /** The page starts with no doctors, loading, and no error. */
    constructor ()
      ensures doctors == [] && loading && error == None
    {
      doctors := [];
      loading := true;
      error := None;
    }

    /**
     * The load: an ok response's text replaces the doctors; a rejection or
     * a non-ok status records the failure and leaves the doctors as they
     * were (empty on a fresh page). Either way loading ends.
     */
    method Load(response: CsvResponse, tokenize: string -> seq<string>, parseNumber: string -> Option<real>)
      modifies this
      ensures !loading
      ensures response.Response? && response.ok ==>
                doctors == InteractiveDoctors(response.text, tokenize, parseNumber) && error == old(error)
      ensures !(response.Response? && response.ok) ==> doctors == old(doctors) && error == Some(LoadFailure)
    {
      if response.Response? && response.ok {
        doctors := InteractiveDoctors(response.text, tokenize, parseNumber);
      } else {
        error := Some(LoadFailure);
      }
      loading := false;
    }
  }

  // ---------------------------------------------------------------- filtering

  predicate Shown(selectedSpecialty: string, selectedGovernorate: string, d: InteractiveDoctor) {
    Matches(selectedSpecialty, selectedGovernorate, d.specialty, d.address)
  }

  /** The doctors given a marker. */
  function MarkerDoctors(doctors: seq<InteractiveDoctor>, selectedSpecialty: string, selectedGovernorate: string)
    : seq<InteractiveDoctor>
  {
    Filter(doctors, d => Shown(selectedSpecialty, selectedGovernorate, d))
  }

  /** `filteredCount`: the number of doctors passing the test, counted along the list. */
  function FilteredCount(doctors: seq<InteractiveDoctor>, selectedSpecialty: string, selectedGovernorate: string)
    : (n: nat)
    ensures n <= |doctors|
    decreases |doctors|
  {
    if doctors == [] then 0
    else
      FilteredCount(doctors[..|doctors| - 1], selectedSpecialty, selectedGovernorate)
      + (if Shown(selectedSpecialty, selectedGovernorate, doctors[|doctors| - 1]) then 1 else 0)
  }

  /** The count shown in the header is the number of markers drawn. */
  lemma {:induction false} FilteredCountIsMarkers(doctors: seq<InteractiveDoctor>,
                                                  selectedSpecialty: string, selectedGovernorate: string)
    ensures FilteredCount(doctors, selectedSpecialty, selectedGovernorate)
         == |MarkerDoctors(doctors, selectedSpecialty, selectedGovernorate)|
    decreases |doctors|
  {
    if doctors != [] {
      var n := |doctors|;
      var p := d => Shown(selectedSpecialty, selectedGovernorate, d);
      FilteredCountIsMarkers(doctors[..n - 1], selectedSpecialty, selectedGovernorate);
      assert doctors == doctors[..n - 1] + [doctors[n - 1]];
      FilterAppend(doctors[..n - 1], [doctors[n - 1]], p);
      assert Filter([doctors[n - 1]], p) == (if p(doctors[n - 1]) then [doctors[n - 1]] else []);
    }
  }

  // ---------------------------------------------------------------- ranked options

  /** `acc[k] = (acc[k] || 0) + 1` over `keys`: how often each key occurs. */
  function Frequencies(keys: seq<string>): (m: map<string, nat>)
    ensures forall k :: k in m <==> k in keys
    ensures forall k :: k in m ==> m[k] == Count(keys, k)
    decreases |keys|
  {
    if keys == [] then map[]
    else
      var n := |keys|;
      var m := Frequencies(keys[..n - 1]);
      var k := keys[n - 1];
      assert keys == keys[..n - 1] + [k];
      assert forall j :: Count(keys, j) == Count(keys[..n - 1], j) + (if j == k then 1 else 0) by {
        forall j ensures Count(keys, j) == Count(keys[..n - 1], j) + (if j == k then 1 else 0) {
          CountAppend(keys[..n - 1], [k], j);
        }
      }
      m[k := (if k in m then m[k] else 0) + 1]
  }

  /**
   * The `reduce` building the frequency dictionary: the counts, and the
   * order in which keys were first inserted.
   */
  method CountFrequencies(keys: seq<string>) returns (counts: map<string, nat>, order: seq<string>)
    ensures counts == Frequencies(keys)
    ensures order == Distinct(keys)
  {
    counts := map[];
    order := [];
    for i := 0 to |keys|
      invariant counts == Frequencies(keys[..i])
      invariant order == Distinct(keys[..i])
    {
      var k := keys[i];
      assert keys[..i + 1][..i] == keys[..i];
      if k in counts {
        counts := counts[k := counts[k] + 1];
      } else {
        counts := counts[k := 1];
        order := order + [k];
      }
    }
    assert keys[..|keys|] == keys;
  }

  /**
   * An array index: a canonical decimal (no sign, no leading zero) of at
   * most 2^32 - 2. `Object.entries` lists such keys first, in ascending
   * numeric order (section 10.1.11.1 of ECMA-262, OrdinaryOwnPropertyKeys).
   */
  predicate IsArrayIndex(k: string) {
    k != [] && (forall i :: 0 <= i < |k| ==> IsDigit(k[i]))
    && (k == "0" || k[0] != '0')
    && DecimalValue(k) <= 4294967294
  }

  predicate NotArrayIndex(k: string) {
    !IsArrayIndex(k)
  }

  function IndexValue(k: string): int {
    if IsArrayIndex(k) then DecimalValue(k) else 0
  }

  /** The key order of `Object.entries` for keys inserted in `order`. */
  function EntriesOrder(order: seq<string>): (r: seq<string>)
    ensures multiset(r) == multiset(order)
  {
    FilterComplement(order, IsArrayIndex, NotArrayIndex);
    SortBy(Filter(order, IsArrayIndex), IndexValue) + Filter(order, NotArrayIndex)
  }

  /** Array indices come first, in ascending value. */
  lemma EntriesOrderIndicesFirst(order: seq<string>)
    ensures var r := EntriesOrder(order);
      forall i, j :: 0 <= i < j < |r| && IsArrayIndex(r[j]) ==> IsArrayIndex(r[i]) && IndexValue(r[i]) <= IndexValue(r[j])
  {
    var r := EntriesOrder(order);
    SortedFrontFirst(order, IsArrayIndex, NotArrayIndex, IndexValue);
    forall i, j | 0 <= i < j < |r| && IsArrayIndex(r[j])
      ensures IsArrayIndex(r[i]) && IndexValue(r[i]) <= IndexValue(r[j])
    {
      var p: string -> bool := IsArrayIndex;
      var key: string -> int := IndexValue;
      assert r == SortBy(Filter(order, p), key) + Filter(order, NotArrayIndex);
      assert p(r[j]);
      assert p(r[i]);
      assert key(r[i]) <= key(r[j]);
    }
  }

  /** The other keys follow in insertion order. */
  lemma EntriesOrderKeepsOthers(order: seq<string>)
    ensures Filter(EntriesOrder(order), NotArrayIndex) == Filter(order, NotArrayIndex)
  {
    SortedFrontRest(order, IsArrayIndex, NotArrayIndex, IndexValue);
  }

  /** When no key is an array index the entries keep insertion order. */
  lemma EntriesOrderPlainKeys(order: seq<string>)
    requires forall k :: 0 <= k < |order| ==> !IsArrayIndex(order[k])
    ensures EntriesOrder(order) == order
  {
    FilterKeepsNone(order, IsArrayIndex);
    FilterKeepsAll(order, NotArrayIndex);
  }

  /** A number written by `String(n)` is an array index of value `n`, once it is at most 2^32 - 2. */
  lemma NumberKeyIsIndex(n: nat)
    requires n <= 4294967294
    ensures IsArrayIndex(NatToString(n)) && IndexValue(NatToString(n)) == n
  {
    NatToStringValue(n);
  }

  /** Two different array indices have different values, so the indices are listed in strictly ascending order. */
  lemma IndexValuesDistinct(a: string, b: string)
    requires IsArrayIndex(a) && IsArrayIndex(b) && a != b
    ensures IndexValue(a) != IndexValue(b)
  {
    CanonicalDecimal(a);
    CanonicalDecimal(b);
  }

  /** The sort key of `(a, b) => b[1] - a[1]`: higher counts first. */
  function Weight(counts: map<string, nat>, k: string): int {
    if k in counts then -(counts[k] as int) else 0
  }

  function ByFrequency(counts: map<string, nat>): string -> int {
    k => Weight(counts, k)
  }

  /** The entries of the dictionary, stably sorted by decreasing count. */
  function Rank(order: seq<string>, counts: map<string, nat>): seq<string> {
    SortBy(EntriesOrder(order), ByFrequency(counts))
  }

  /** `['all', ...sorted]`, or just `['all']` when there are no doctors. */
  function RankedOptions(keys: seq<string>): (r: seq<string>)
    ensures |r| == 1 + |Distinct(keys)| && r[0] == All
  {
    if keys == [] then [All]
    else
      RankMultiset(Distinct(keys), Frequencies(keys));
      [All] + Rank(Distinct(keys), Frequencies(keys))
  }

  /** Ranking only reorders the inserted keys. */
  lemma RankMultiset(order: seq<string>, counts: map<string, nat>)
    ensures multiset(Rank(order, counts)) == multiset(order)
  {
  }

  /** Ranked keys of the dictionary come in non-increasing order of count. */
  lemma RankSorted(order: seq<string>, counts: map<string, nat>)
    requires forall k :: k in order ==> k in counts
    ensures var r := Rank(order, counts);
      forall i, j :: 0 <= i < j < |r| ==> r[i] in counts && r[j] in counts && counts[r[i]] >= counts[r[j]]
  {
    var r := Rank(order, counts);
    RankMultiset(order, counts);
    SortBySpec(EntriesOrder(order), ByFrequency(counts));
    assert forall k :: 0 <= k < |r| ==> r[k] in counts by {
      forall k | 0 <= k < |r| ensures r[k] in counts {
        assert r[k] in multiset(order);
      }
    }
    assert forall k :: 0 <= k < |r| ==> ByFrequency(counts)(r[k]) == -(counts[r[k]] as int);
  }

  /**
   * The ranked list starts with `'all'`, then holds each key once and
   * nothing else, in non-increasing order of frequency; keys of equal
   * frequency keep their order among the entries.
   */
  lemma RankedOptionsSpec(keys: seq<string>)
    ensures |RankedOptions(keys)| >= 1 && RankedOptions(keys)[0] == All
    ensures keys == [] ==> RankedOptions(keys) == [All]
    ensures forall o :: multiset(RankedOptions(keys)[1..])[o] == (if o in keys then 1 else 0)
    ensures var r := RankedOptions(keys);
      forall i, j :: 1 <= i < j < |r| ==> Count(keys, r[i]) >= Count(keys, r[j])
    ensures forall v :: WithKey(RankedOptions(keys)[1..], ByFrequency(Frequencies(keys)), v)
                     == WithKey(EntriesOrder(Distinct(keys)), ByFrequency(Frequencies(keys)), v)
  {
    var r := RankedOptions(keys);
    var m := Frequencies(keys);
    var d := Distinct(keys);
    NoDuplicatesOnce(d);
    if keys == [] {
      assert r[1..] == [];
    } else {
      var tail := Rank(d, m);
      assert r[1..] == tail;
      RankMultiset(d, m);
      RankSorted(d, m);
      forall i, j | 1 <= i < j < |r| ensures Count(keys, r[i]) >= Count(keys, r[j]) {
        assert r[i] == tail[i - 1] && r[j] == tail[j - 1];
      }
      forall v ensures WithKey(tail, ByFrequency(m), v) == WithKey(EntriesOrder(d), ByFrequency(m), v) {
        SortByStable(EntriesOrder(d), ByFrequency(m), v);
      }
    }
  }

  /** The memoised list: the frequencies counted by the `reduce`, then ranked. */
  method RankKeys(keys: seq<string>) returns (options: seq<string>)
    ensures options == RankedOptions(keys)
  {
    if |keys| == 0 {
      return [All];
    }
    var counts, order := CountFrequencies(keys);
    options := [All] + Rank(order, counts);
  }

  /** The specialty list: `'all'`, then the specialties by decreasing frequency. */
  method SpecialtyOptions(doctors: seq<InteractiveDoctor>) returns (options: seq<string>)
    ensures options == RankedOptions(Specialties(Profiles(doctors)))
  {
    options := RankKeys(Specialties(Profiles(doctors)));
  }

  /** The governorate list: `'all'`, then the governorates (last word of the address) by decreasing frequency. */
  method GovernorateOptions(doctors: seq<InteractiveDoctor>) returns (options: seq<string>)
    ensures options == RankedOptions(Governorates(Profiles(doctors)))
  {
    options := RankKeys(Governorates(Profiles(doctors)));
  }

  /** The most frequent specialty comes right after `'all'`. */
  lemma MostFrequentFirst(doctors: seq<InteractiveDoctor>, s: string)
    requires s in Specialties(Profiles(doctors))
    ensures var r := RankedOptions(Specialties(Profiles(doctors)));
      |r| >= 2 && Count(Specialties(Profiles(doctors)), r[1]) >= Count(Specialties(Profiles(doctors)), s)
  {
    var keys := Specialties(Profiles(doctors));
    var r := RankedOptions(keys);
    RankedOptionsSpec(keys);
    assert s in multiset(r[1..]);
    var i :| 0 <= i < |r[1..]| && r[1..][i] == s;
    if i > 0 {
      assert Count(keys, r[1]) >= Count(keys, r[i + 1]);
    }
  }

  // ---------------------------------------------------------------- working hours

  datatype DayHours = DayHours(day: string, hours: string)

  /** The popup's day labels, Monday first. */
  const DayNames: seq<string> := ["Lundi", "Mardi", "Mercredi", "Jeudi", "Vendredi", "Samedi", "Dimanche"]

  /** The popup's table before filtering: each day's name with that day's field. */
  function Week(d: InteractiveDoctor): (r: seq<DayHours>)
    ensures |r| == 7 && forall k :: 0 <= k < 7 ==> r[k].day == DayNames[k] && r[k].hours == Schedule(d)[k]
  {
    [DayHours("Lundi", d.Lundi), DayHours("Mardi", d.Mardi), DayHours("Mercredi", d.Mercredi),
     DayHours("Jeudi", d.Jeudi), DayHours("Vendredi", d.Vendredi), DayHours("Samedi", d.Samedi),
     DayHours("Dimanche", d.Dimanche)]
  }

  /** `item.hours && item.hours.trim() !== ''`. */
  predicate HasHours(item: DayHours) {
    item.hours != "" && Trim(item.hours) != ""
  }

  function WorkingHours(d: InteractiveDoctor): seq<DayHours> {
    Filter(Week(d), HasHours)
  }

  /** The popup lists exactly the days whose hours are not blank once trimmed, Monday first. */
  lemma WorkingHoursSpec(d: InteractiveDoctor)
    ensures IsSubsequence(WorkingHours(d), Week(d))
    ensures forall item :: item in WorkingHours(d) <==> item in Week(d) && Trim(item.hours) != ""
  {
    FilterSpec(Week(d), HasHours);
  }

  /** A doctor whose seven day fields are all blank gets no hours section. */
  lemma NoHoursNoSection(d: InteractiveDoctor)
    requires forall k :: 0 <= k < 7 ==> AllSpace(Schedule(d)[k])
    ensures WorkingHours(d) == []
  {
    FilterKeepsNone(Week(d), HasHours);
  }
}
