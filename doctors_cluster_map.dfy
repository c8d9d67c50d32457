/**
 * The cluster map: doctors of the selected specialty are grouped, in list
 * order, into clusters by first fit: a doctor joins the first cluster whose
 * current centre lies strictly within the radius on both axes, and the
 * centre moves to the mean of the members; otherwise the doctor starts a
 * new cluster. Each cluster is drawn with a size and a colour picked by
 * its member count.
 *
 * Coordinates are exact reals here; the page computes in floating point.
 */
module DoctorsClusterMap {
  import opened Wrappers
  import opened Seqs
  import opened DashboardCsv

  /** The radius selected when the page opens, in degrees. */
  const DefaultRadius: real := 0.05

  /** A cluster: its centre, its member count and its members in admission order. */
  datatype Cluster = Cluster(lat: real, lng: real, count: int, doctors: seq<ProfileDoctor>)

  function Abs(r: real): real {
    if r < 0.0 then -r else r
  }

  /** The doctors of the selected specialty, in list order: what the clustering sees. */
  function SpecialtyFiltered(doctors: seq<ProfileDoctor>, selected: string): (r: seq<ProfileDoctor>)
    ensures |r| <= |doctors|
  {
    Filter(doctors, (d: ProfileDoctor) => SpecialtyMatches(selected, d.specialty))
  }

  lemma SpecialtyFilteredSpec(doctors: seq<ProfileDoctor>, selected: string)
    ensures IsSubsequence(SpecialtyFiltered(doctors, selected), doctors)
    ensures forall d :: (d in SpecialtyFiltered(doctors, selected) <==>
                           d in doctors && (selected == All || d.specialty == selected))
  {
    FilterSpec(doctors, (d: ProfileDoctor) => SpecialtyMatches(selected, d.specialty));
  }

  /** `'all'` keeps every doctor. */
  lemma {:induction false} AllSpecialtiesKeepsEverything(doctors: seq<ProfileDoctor>)
    ensures SpecialtyFiltered(doctors, All) == doctors
    decreases |doctors|
  {
    if doctors != [] {
      AllSpecialtiesKeepsEverything(doctors[1..]);
      assert doctors == [doctors[0]] + doctors[1..];
    }
  }

  /** The cluster's centre is strictly within `radius` of the doctor on both axes. */
  predicate Near(c: Cluster, d: ProfileDoctor, radius: real) {
    Abs(c.lat - d.x) < radius && Abs(c.lng - d.y) < radius
  }

  /** `clusteredData.find(...)`: the index of the first cluster near the doctor, from `from` on. */
  function FirstFitFrom(clusters: seq<Cluster>, d: ProfileDoctor, radius: real, from: nat): (r: Option<nat>)
    requires from <= |clusters|
    ensures r.Some? ==> from <= r.value < |clusters| && Near(clusters[r.value], d, radius)
    ensures r.Some? ==> forall j :: from <= j < r.value ==> !Near(clusters[j], d, radius)
    ensures r.None? ==> forall j :: from <= j < |clusters| ==> !Near(clusters[j], d, radius)
    decreases |clusters| - from
  {
    if from == |clusters| then None
    else if Near(clusters[from], d, radius) then Some(from)
    else FirstFitFrom(clusters, d, radius, from + 1)
  }

  /** The first cluster, in creation order, near the doctor; `None` when there is none. */
  function FirstFit(clusters: seq<Cluster>, d: ProfileDoctor, radius: real): (r: Option<nat>)
    ensures r.Some? ==> r.value < |clusters| && Near(clusters[r.value], d, radius)
    ensures r.Some? ==> forall j :: 0 <= j < r.value ==> !Near(clusters[j], d, radius)
    ensures r.None? ==> forall j :: 0 <= j < |clusters| ==> !Near(clusters[j], d, radius)
  {
    FirstFitFrom(clusters, d, radius, 0)
  }

  function SumX(ds: seq<ProfileDoctor>): real
    decreases |ds|
  {
    if ds == [] then 0.0 else SumX(ds[..|ds| - 1]) + ds[|ds| - 1].x
  }

  function SumY(ds: seq<ProfileDoctor>): real
    decreases |ds|
  {
    if ds == [] then 0.0 else SumY(ds[..|ds| - 1]) + ds[|ds| - 1].y
  }

  /** A new cluster: centred on the doctor, with the doctor as its one member. */
  function Singleton(d: ProfileDoctor): Cluster {
    Cluster(d.x, d.y, 1, [d])
  }

  /** An existing cluster admitting a doctor: the member is appended, the count raised, the centre re-averaged. */
  function Grow(c: Cluster, d: ProfileDoctor): Cluster {
    var members := c.doctors + [d];
    Cluster(SumX(members) / |members| as real, SumY(members) / |members| as real, c.count + 1, members)
  }

  /** One step of the loop: the doctor joins its first fit or starts a new cluster at the end. */
  function Admit(clusters: seq<Cluster>, d: ProfileDoctor, radius: real): (r: seq<Cluster>)
    ensures |r| == |clusters| || |r| == |clusters| + 1
    ensures var fit := FirstFit(clusters, d, radius);
      forall j :: 0 <= j < |clusters| && (fit.None? || j != fit.value) ==> r[j] == clusters[j]
  {
    match FirstFit(clusters, d, radius)
    case Some(i) => clusters[i := Grow(clusters[i], d)]
    case None => clusters + [Singleton(d)]
  }

  /** The clusters of `doctors`, admitted one after the other. */
  function ClusterAll(doctors: seq<ProfileDoctor>, radius: real): (r: seq<Cluster>)
    ensures |r| <= |doctors|
    ensures doctors != [] ==> r != []
    decreases |doctors|
  {
    if doctors == [] then []
    else Admit(ClusterAll(doctors[..|doctors| - 1], radius), doctors[|doctors| - 1], radius)
  }

  /** The clusters the page draws for a specialty and a radius. */
  function ClusterView(doctors: seq<ProfileDoctor>, selected: string, radius: real): seq<Cluster> {
    ClusterAll(SpecialtyFiltered(doctors, selected), radius)
  }

  /** The `forEach` loop building `clusteredData`. */
  method BuildClusters(doctors: seq<ProfileDoctor>, radius: real) returns (clusters: seq<Cluster>)
    ensures clusters == ClusterAll(doctors, radius)
  {
    clusters := [];
    var i := 0;
    while i < |doctors|
      invariant 0 <= i <= |doctors|
      invariant clusters == ClusterAll(doctors[..i], radius)
    {
      var doctor := doctors[i];
      var existing := FirstFit(clusters, doctor, radius);
      match existing {
        case Some(k) =>
          clusters := clusters[k := Grow(clusters[k], doctor)];
        case None =>
          clusters := clusters + [Singleton(doctor)];
      }
      assert doctors[..i + 1][..i] == doctors[..i];
      i := i + 1;
    }
    assert doctors[..|doctors|] == doctors;
  }

  // ---------------------------------------------------------------- invariants

  /** Members, count and centre agree: at least one member, as many as the count, centred on their mean. */
  predicate WellFormed(c: Cluster) {
    |c.doctors| >= 1
    && c.count == |c.doctors|
    && c.lat == SumX(c.doctors) / |c.doctors| as real
    && c.lng == SumY(c.doctors) / |c.doctors| as real
  }

  lemma SingletonWellFormed(d: ProfileDoctor)
    ensures WellFormed(Singleton(d))
  {
    assert [d][..0] == [];
  }

  lemma GrowWellFormed(c: Cluster, d: ProfileDoctor)
    requires WellFormed(c)
    ensures WellFormed(Grow(c, d))
  {
  }

  /** Every cluster built is well formed: its count is its number of members and its centre their mean. */
  lemma {:induction false} ClusterAllWellFormed(doctors: seq<ProfileDoctor>, radius: real)
    ensures forall j :: 0 <= j < |ClusterAll(doctors, radius)| ==> WellFormed(ClusterAll(doctors, radius)[j])
    decreases |doctors|
  {
    if doctors != [] {
      var prev := ClusterAll(doctors[..|doctors| - 1], radius);
      var d := doctors[|doctors| - 1];
      ClusterAllWellFormed(doctors[..|doctors| - 1], radius);
      match FirstFit(prev, d, radius) {
        case Some(i) => GrowWellFormed(prev[i], d);
        case None => SingletonWellFormed(d);
      }
    }
  }

  /** The cluster each doctor is put in: its first fit, or the new cluster at the end. */
  ghost function Owners(doctors: seq<ProfileDoctor>, radius: real): (os: seq<nat>)
    ensures |os| == |doctors|
    decreases |doctors|
  {
    if doctors == [] then []
    else
      var prev := ClusterAll(doctors[..|doctors| - 1], radius);
      Owners(doctors[..|doctors| - 1], radius)
      + [match FirstFit(prev, doctors[|doctors| - 1], radius) case Some(i) => i case None => |prev|]
  }

  /** The doctors assigned to cluster `j`, in list order. */
  ghost function Select(doctors: seq<ProfileDoctor>, owners: seq<nat>, j: nat): seq<ProfileDoctor>
    requires |owners| == |doctors|
    decreases |doctors|
  {
    if doctors == [] then []
    else
      Select(doctors[..|doctors| - 1], owners[..|owners| - 1], j)
      + (if owners[|owners| - 1] == j then [doctors[|doctors| - 1]] else [])
  }

  /**
   * `owners` gives each doctor a cluster of `cs`, and each cluster's members
   * are exactly the doctors given to it, in list order.
   */
  ghost predicate Partitioned(doctors: seq<ProfileDoctor>, owners: seq<nat>, cs: seq<Cluster>)
    requires |owners| == |doctors|
  {
    (forall k :: 0 <= k < |owners| ==> owners[k] < |cs|)
    && (forall j :: 0 <= j < |cs| ==> cs[j].doctors == Select(doctors, owners, j))
    && (forall j: nat :: j >= |cs| ==> Select(doctors, owners, j) == [])
  }

  /** Selecting from a list with one more doctor at the end. */
  lemma SelectSnoc(init: seq<ProfileDoctor>, owners: seq<nat>, d: ProfileDoctor, o: nat, j: nat)
    requires |owners| == |init|
    ensures Select(init + [d], owners + [o], j) == Select(init, owners, j) + (if o == j then [d] else [])
  {
    assert (init + [d])[..|init|] == init;
    assert (owners + [o])[..|owners|] == owners;
  }

  /** A doctor joining cluster `i` keeps the partition. */
  lemma PartitionGrow(init: seq<ProfileDoctor>, owners: seq<nat>, cs: seq<Cluster>, d: ProfileDoctor, i: nat)
    requires |owners| == |init| && Partitioned(init, owners, cs) && i < |cs|
    ensures Partitioned(init + [d], owners + [i], cs[i := Grow(cs[i], d)])
  {
    var cs' := cs[i := Grow(cs[i], d)];
    forall j: nat ensures Select(init + [d], owners + [i], j) == Select(init, owners, j) + (if i == j then [d] else []) {
      SelectSnoc(init, owners, d, i, j);
    }
    assert forall j :: 0 <= j < |cs'| ==> cs'[j].doctors == Select(init + [d], owners + [i], j);
  }

  /** A doctor starting a new cluster at the end keeps the partition. */
  lemma PartitionNew(init: seq<ProfileDoctor>, owners: seq<nat>, cs: seq<Cluster>, d: ProfileDoctor)
    requires |owners| == |init| && Partitioned(init, owners, cs)
    ensures Partitioned(init + [d], owners + [|cs|], cs + [Singleton(d)])
  {
    var cs' := cs + [Singleton(d)];
    forall j: nat ensures Select(init + [d], owners + [|cs|], j) == Select(init, owners, j) + (if |cs| == j then [d] else []) {
      SelectSnoc(init, owners, d, |cs|, j);
    }
    assert Select(init, owners, |cs|) == [];
    assert forall j :: 0 <= j < |cs'| ==> cs'[j].doctors == Select(init + [d], owners + [|cs|], j);
  }

  /**
   * The clusters partition the doctors: each doctor is given exactly one
   * cluster, and each cluster's members are the doctors given to it, in
   * list order.
   */
  lemma {:induction false} ClusterAllPartition(doctors: seq<ProfileDoctor>, radius: real)
    ensures Partitioned(doctors, Owners(doctors, radius), ClusterAll(doctors, radius))
    decreases |doctors|
  {
    if doctors != [] {
      var n := |doctors|;
      var init := doctors[..n - 1];
      var d := doctors[n - 1];
      var prev, pos := ClusterAll(init, radius), Owners(init, radius);
      ClusterAllPartition(init, radius);
      assert doctors == init + [d];
      match FirstFit(prev, d, radius) {
        case Some(i) => PartitionGrow(init, pos, prev, d, i);
        case None => PartitionNew(init, pos, prev, d);
      }
    }
  }

  /** The sum of the clusters' counts. */
  function SumCounts(clusters: seq<Cluster>): int
    decreases |clusters|
  {
    if clusters == [] then 0 else SumCounts(clusters[..|clusters| - 1]) + clusters[|clusters| - 1].count
  }

  lemma {:induction false} SumCountsUpdate(clusters: seq<Cluster>, i: nat, c: Cluster)
    requires i < |clusters|
    ensures SumCounts(clusters[i := c]) == SumCounts(clusters) - clusters[i].count + c.count
    decreases |clusters|
  {
    var n := |clusters|;
    if i < n - 1 {
      assert clusters[i := c][..n - 1] == clusters[..n - 1][i := c];
      SumCountsUpdate(clusters[..n - 1], i, c);
    } else {
      assert clusters[i := c][..n - 1] == clusters[..n - 1];
    }
  }

  lemma SumCountsAppend(clusters: seq<Cluster>, c: Cluster)
    ensures SumCounts(clusters + [c]) == SumCounts(clusters) + c.count
  {
    assert (clusters + [c])[..|clusters|] == clusters;
  }

  /**
   * The counts add up to the number of doctors clustered ("Showing n
   * doctors in m clusters"), so there are never more clusters than doctors.
   */
  lemma {:induction false} ClusterAllCounts(doctors: seq<ProfileDoctor>, radius: real)
    ensures SumCounts(ClusterAll(doctors, radius)) == |doctors|
    ensures |ClusterAll(doctors, radius)| <= |doctors|
    decreases |doctors|
  {
    if doctors != [] {
      var init := doctors[..|doctors| - 1];
      var d := doctors[|doctors| - 1];
      var prev := ClusterAll(init, radius);
      ClusterAllCounts(init, radius);
      match FirstFit(prev, d, radius) {
        case Some(i) => SumCountsUpdate(prev, i, Grow(prev[i], d));
        case None => SumCountsAppend(prev, Singleton(d));
      }
    }
  }

  /** Two doctors closer than the radius on both axes share one cluster centred between them. */
  lemma MergeTwo(a: ProfileDoctor, b: ProfileDoctor, radius: real)
    requires Abs(a.x - b.x) < radius && Abs(a.y - b.y) < radius
    ensures ClusterAll([a, b], radius) == [Cluster((a.x + b.x) / 2.0, (a.y + b.y) / 2.0, 2, [a, b])]
  {
    assert [a, b][..1] == [a] && [a][..0] == [];
    assert ClusterAll([a], radius) == [Singleton(a)];
    assert Near(Singleton(a), b, radius);
    assert [a] + [b] == [a, b];
    assert SumX([a]) == a.x && SumY([a]) == a.y;
    assert SumX([a, b]) == a.x + b.x && SumY([a, b]) == a.y + b.y;
  }

  /**
   * Two doctors strictly within the radius of each other form one cluster
   * centred on their midpoint; a third doctor not within the radius of that
   * midpoint starts a second cluster.
   */
  lemma MergeThenSplit(a: ProfileDoctor, b: ProfileDoctor, c: ProfileDoctor, radius: real)
    requires Abs(a.x - b.x) < radius && Abs(a.y - b.y) < radius
    requires !(Abs((a.x + b.x) / 2.0 - c.x) < radius && Abs((a.y + b.y) / 2.0 - c.y) < radius)
    ensures ClusterAll([a, b, c], radius)
         == [Cluster((a.x + b.x) / 2.0, (a.y + b.y) / 2.0, 2, [a, b]), Singleton(c)]
  {
    MergeTwo(a, b, radius);
    assert [a, b, c][..2] == [a, b];
  }

  // ---------------------------------------------------------------- display

  /** The five count ranges shared by the size and the colour of a cluster's circle. */
  datatype Bucket = One | Few | Several | Many | Crowd

  function BucketOf(count: int): Bucket {
    if count == 1 then One
    else if count < 5 then Few
    else if count < 10 then Several
    else if count < 20 then Many
    else Crowd
  }

  /** `getRadius`: the circle's radius, in pixels; each size belongs to exactly one bucket. */
  function GetRadius(count: int): (r: int)
    ensures r == 5 <==> BucketOf(count) == One
    ensures r == 8 <==> BucketOf(count) == Few
    ensures r == 12 <==> BucketOf(count) == Several
    ensures r == 16 <==> BucketOf(count) == Many
    ensures r == 20 <==> BucketOf(count) == Crowd
  {
    if count == 1 then 5
    else if count < 5 then 8
    else if count < 10 then 12
    else if count < 20 then 16
    else 20
  }

  /** `getColor`: blue, green, amber, red, dark red; each colour belongs to exactly one bucket. */
  function GetColor(count: int): (c: string)
    ensures c == "#3B82F6" <==> BucketOf(count) == One
    ensures c == "#10B981" <==> BucketOf(count) == Few
    ensures c == "#F59E0B" <==> BucketOf(count) == Several
    ensures c == "#EF4444" <==> BucketOf(count) == Many
    ensures c == "#991B1B" <==> BucketOf(count) == Crowd
  {
    if count == 1 then "#3B82F6"
    else if count < 5 then "#10B981"
    else if count < 10 then "#F59E0B"
    else if count < 20 then "#EF4444"
    else "#991B1B"
  }

  /** For real counts the buckets are the ranges 1, 2 to 4, 5 to 9, 10 to 19, and 20 and above. */
  lemma BucketRanges(count: int)
    requires count >= 1
    ensures BucketOf(count) == One <==> count == 1
    ensures BucketOf(count) == Few <==> 2 <= count <= 4
    ensures BucketOf(count) == Several <==> 5 <= count <= 9
    ensures BucketOf(count) == Many <==> 10 <= count <= 19
    ensures BucketOf(count) == Crowd <==> count >= 20
  {
  }

  /** A larger cluster is never drawn smaller. */
  lemma RadiusMonotone(a: int, b: int)
    requires 1 <= a <= b
    ensures GetRadius(a) <= GetRadius(b)
  {
  }

  /** Size and colour move together: two counts share a colour exactly when they share a radius. */
  lemma ColorFollowsRadius(a: int, b: int)
    ensures GetColor(a) == GetColor(b) <==> GetRadius(a) == GetRadius(b)
  {
    if GetColor(a) == GetColor(b) {
      var ca, cb := GetColor(a), GetColor(b);
      assert ca[1] == cb[1] && ca[2] == cb[2];
    }
  }
}
