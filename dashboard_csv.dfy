/**
 * The CSV reading the three dashboard maps share: drop the header line,
 * skip blank lines, cut each line into tokens, strip their quotes and
 * white space, and read fields by token position; a row is kept only when
 * both coordinates are non-zero.
 *
 * The collaborators are parameters:
 *  - `tokenize` is `line.match(/(".*?"|[^",\s]+)(?=\s*,|\s*$)/g) || []`;
 *    positions index its tokens, not CSV columns, so a field that yields
 *    no token shifts the later fields left;
 *  - `parseNumber` is `parseFloat`, `None` standing for `NaN`.
 */
module DashboardCsv {
  import opened Wrappers
  import opened Strings
  import opened Seqs
  import StringOrder

  /** The option that selects every value. */
  const All: string := "all"

  predicate NonBlank(line: string) {
    Trim(line) != ""
  }

  /** The lines after the first, less those that are blank once trimmed. */
  function DataLines(csv: string): (lines: seq<string>)
    ensures forall k :: 0 <= k < |lines| ==> NonBlank(lines[k])
  {
    Filter(Split(csv, '\n')[1..], NonBlank)
  }

  /** The data lines are the non-blank lines after the header, in file order. */
  lemma DataLinesSpec(csv: string)
    ensures IsSubsequence(DataLines(csv), Split(csv, '\n')[1..])
    ensures forall line :: line in DataLines(csv) <==> line in Split(csv, '\n')[1..] && NonBlank(line)
  {
    FilterSpec(Split(csv, '\n')[1..], NonBlank);
  }

  /** Whatever the header holds, it is dropped, and the body's blank lines are skipped. */
  lemma HeaderDropped(header: string, body: string)
    requires '\n' !in header
    ensures DataLines(header + "\n" + body) == Filter(Split(body, '\n'), NonBlank)
  {
    SplitAfterPiece(header, body, '\n');
    assert header + "\n" + body == header + ['\n'] + body;
    assert ([header] + Split(body, '\n'))[1..] == Split(body, '\n');
  }

  /** `v.replace(/^"|"$/g, '')`: one leading and one trailing double quote removed, if present. */
  function StripQuotes(v: string): (r: string)
    ensures var i := if v != [] && v[0] == '"' then 1 else 0;
      i + |r| <= |v| && r == v[i..i + |r|]
      && |r| == (if |v| > i && v[|v| - 1] == '"' then |v| - i - 1 else |v| - i)
  {
    var a := if v != [] && v[0] == '"' then v[1..] else v;
    if a != [] && a[|a| - 1] == '"' then a[..|a| - 1] else a
  }

  /** A quoted token loses exactly its two quotes. */
  lemma StripQuotedToken(inner: string)
    ensures StripQuotes("\"" + inner + "\"") == inner
  {
    var v := "\"" + inner + "\"";
    assert v[1..] == inner + "\"";
  }

  /** A token without quotes is unchanged. */
  lemma StripUnquotedToken(v: string)
    requires '"' !in v
    ensures StripQuotes(v) == v
  {
  }

  /** One token cleaned: quotes stripped, then trimmed. */
  function Clean(v: string): string {
    Trim(StripQuotes(v))
  }

  /** The cleaned tokens of a line. */
  function CleanValues(line: string, tokenize: string -> seq<string>): (vals: seq<string>)
    ensures |vals| == |tokenize(line)|
    ensures forall k :: 0 <= k < |vals| ==> vals[k] == Clean(tokenize(line)[k])
  {
    var tokens := tokenize(line);
    seq(|tokens|, k requires 0 <= k < |tokens| => Clean(tokens[k]))
  }

  /** `cleanValues[i] || ''`: the token at position `i`, or `""` past the end. */
  function Field(vals: seq<string>, i: nat): string {
    if i < |vals| then vals[i] else ""
  }

  /** `parseFloat(cleanValues[i]) || 0`: a missing token or `NaN` reads as 0. */
  function Coord(vals: seq<string>, i: nat, parseNumber: string -> Option<real>): real {
    if i < |vals| then (match parseNumber(vals[i]) case Some(v) => v case None => 0.0) else 0.0
  }

  /**
   * `doc.x && doc.y && !isNaN(doc.x) && !isNaN(doc.y)`: since `|| 0` has
   * already turned `NaN` into 0, only the two non-zero tests decide.
   */
  predicate HasCoordinates(x: real, y: real) {
    x != 0.0 && y != 0.0
  }

  /** The record the profile map and the cluster map read from a line. */
  datatype ProfileDoctor = ProfileDoctor(
    name: string,
    specialty: string,
    phone1: string,
    phone2: string,
    address: string,
    x: real,
    y: real,
    presentation: string,
    workingHours: string)

  /** Tokens 1 to 9 become the fields; token 0 is not read. */
  function ProfileRow(line: string, tokenize: string -> seq<string>, parseNumber: string -> Option<real>)
    : (r: ProfileDoctor)
    ensures var n := |tokenize(line)|;
      (n <= 1 ==> r.name == "") && (n <= 2 ==> r.specialty == "") && (n <= 5 ==> r.address == "")
      && (n <= 6 ==> r.x == 0.0) && (n <= 7 ==> r.y == 0.0) && (n <= 9 ==> r.workingHours == "")
    ensures var t := tokenize(line); 2 < |t| ==> r.specialty == Clean(t[2])
    ensures var t := tokenize(line); 5 < |t| ==> r.address == Clean(t[5])
  {
    var v := CleanValues(line, tokenize);
    ProfileDoctor(Field(v, 1), Field(v, 2), Field(v, 3), Field(v, 4), Field(v, 5),
      Coord(v, 6, parseNumber), Coord(v, 7, parseNumber), Field(v, 8), Field(v, 9))
  }

  /** The doctors' specialties, in list order. */
  function Specialties(doctors: seq<ProfileDoctor>): (r: seq<string>)
    ensures |r| == |doctors| && forall k :: 0 <= k < |r| ==> r[k] == doctors[k].specialty
  {
    seq(|doctors|, k requires 0 <= k < |doctors| => doctors[k].specialty)
  }

  /** The doctors' governorates (the last word of each address), in list order. */
  function Governorates(doctors: seq<ProfileDoctor>): (r: seq<string>)
    ensures |r| == |doctors| && forall k :: 0 <= k < |r| ==> r[k] == Governorate(doctors[k].address)
  {
    seq(|doctors|, k requires 0 <= k < |doctors| => Governorate(doctors[k].address))
  }

  predicate ProfileLocated(d: ProfileDoctor) {
    HasCoordinates(d.x, d.y)
  }

  /** One record per data line, in order, before the coordinate test. */
  function ProfileRows(csv: string, tokenize: string -> seq<string>, parseNumber: string -> Option<real>)
    : (rows: seq<ProfileDoctor>)
    ensures |rows| == |DataLines(csv)|
    ensures forall k :: 0 <= k < |rows| ==> rows[k] == ProfileRow(DataLines(csv)[k], tokenize, parseNumber)
  {
    var lines := DataLines(csv);
    seq(|lines|, k requires 0 <= k < |lines| => ProfileRow(lines[k], tokenize, parseNumber))
  }

  /** The doctors a profile CSV text yields. */
  function ProfileDoctors(csv: string, tokenize: string -> seq<string>, parseNumber: string -> Option<real>)
    : (ds: seq<ProfileDoctor>)
    ensures |ds| <= |DataLines(csv)|
    ensures forall k :: 0 <= k < |ds| ==> HasCoordinates(ds[k].x, ds[k].y)
  {
    Filter(ProfileRows(csv, tokenize, parseNumber), ProfileLocated)
  }

  /** The loaded doctors are the records with both coordinates non-zero, in file order. */
  lemma ProfileDoctorsSpec(csv: string, tokenize: string -> seq<string>, parseNumber: string -> Option<real>)
    ensures IsSubsequence(ProfileDoctors(csv, tokenize, parseNumber), ProfileRows(csv, tokenize, parseNumber))
    ensures forall d :: (d in ProfileDoctors(csv, tokenize, parseNumber) <==>
                            d in ProfileRows(csv, tokenize, parseNumber) && HasCoordinates(d.x, d.y))
  {
    FilterSpec(ProfileRows(csv, tokenize, parseNumber), ProfileLocated);
  }

  /** A line with fewer than eight tokens has no `y` and is never loaded. */
  lemma ShortRowDropped(line: string, tokenize: string -> seq<string>, parseNumber: string -> Option<real>)
    requires |tokenize(line)| < 8
    ensures !ProfileLocated(ProfileRow(line, tokenize, parseNumber))
  {
  }

  /** The governorate of an address: the last piece of `address.split(' ')`. */
  function Governorate(address: string): (g: string)
    ensures |g| <= |address| && address[|address| - |g|..] == g
    ensures ' ' !in g
    ensures |g| == |address| || address[|address| - |g| - 1] == ' '
  {
    LastPiece(address, ' ')
  }

  /** An address without a space is its own governorate; one ending in a space has `""` as governorate. */
  lemma GovernorateEdgeCases(address: string)
    ensures ' ' !in address ==> Governorate(address) == address
    ensures address != [] && address[|address| - 1] == ' ' ==> Governorate(address) == ""
  {
    if ' ' !in address {
      LastPieceWithoutSeparator(address, ' ');
    }
    if address != [] && address[|address| - 1] == ' ' {
      LastPieceAfterTrailingSeparator(address, ' ');
    }
  }

  /** The specialty test: `'all'` or an exact match. */
  predicate SpecialtyMatches(selected: string, specialty: string) {
    selected == All || specialty == selected
  }

  /** The two-predicate filter: the specialty test, and the governorate `'all'` or a substring of the address. */
  predicate Matches(selectedSpecialty: string, selectedGovernorate: string, specialty: string, address: string) {
    SpecialtyMatches(selectedSpecialty, specialty)
    && (selectedGovernorate == All || Includes(address, selectedGovernorate))
  }

  /** Choosing a doctor's own specialty and governorate always keeps that doctor. */
  lemma OwnSelectionMatches(specialty: string, address: string)
    ensures Matches(specialty, Governorate(address), specialty, address)
  {
    IncludesSuffix(address, Governorate(address));
  }

  /** `['all', ...new Set(values)].sort()`: the options, in code-unit order. */
  function SortedOptions(values: seq<string>): seq<string> {
    StringOrder.Sort([All] + Distinct(values))
  }

  /**
   * The options are sorted, hold `'all'` and each value once (a value
   * equal to `'all'` adds a second `'all'`), and nothing else.
   */
  lemma SortedOptionsSpec(values: seq<string>)
    ensures StringOrder.Sorted(SortedOptions(values))
    ensures multiset(SortedOptions(values)) == multiset([All] + Distinct(values))
    ensures forall o :: o in SortedOptions(values) <==> o == All || o in values
    ensures NoDuplicates(Distinct(values))
  {
    StringOrder.SortSpec([All] + Distinct(values));
    forall o ensures o in SortedOptions(values) <==> o == All || o in values {
      calc {
        o in SortedOptions(values);
        o in multiset(SortedOptions(values));
        o in multiset([All] + Distinct(values));
        o in [All] + Distinct(values);
      }
    }
  }

  /** `'all'` is not always first: a value whose first code unit sorts below `a` precedes it. */
  lemma AllNotAlwaysFirst(v: string)
    requires v != [] && StringOrder.Utf16(v[0])[0] < 'a' as int
    ensures SortedOptions([v]) == [v, All]
  {
    assert Distinct([v]) == [v] by {
      assert [v][..0] == [];
    }
    assert !StringOrder.StrLe(All, v) by {
      StringOrder.CodeUnitsHead(v);
      StringOrder.CodeUnitsHead(All);
    }
    StringOrder.SortPairOutOfOrder(All, v);
  }
}
