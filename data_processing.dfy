/**
 * The table logic of the application's start-up data load: the interest
 * profiles of the occupations, the name of each occupation cluster, and the
 * top competencies of each occupation.
 */
module DataProcessing {
  import opened Wrappers
  import opened Riasec

  // ----- rows of the input tables -----

  /** A row of the occupation table (`O*NET-SOC Code`, `Title`). */
  datatype Job = Job(code: string, title: string)

  /**
   * A row of an O*NET table in long format: `O*NET-SOC Code`, `Scale ID`, the
   * element column the code reads and `Data Value`. The element is the
   * `Element ID` in the interests table and the `Element Name` in the
   * knowledge, skills and abilities tables.
   */
  datatype ScaleRow = ScaleRow(code: string, scaleId: string, element: string, value: real)

  /** A row of the interests table. */
  type InterestRow = ScaleRow

  /** A row of a knowledge, skills or abilities table. */
  type CompetencyRow = ScaleRow

  /**
   * How reading a knowledge, skills or abilities file ends: the file is missing
   * (`FileNotFoundError`, caught by `_get_top_elements`), reading it raises
   * anything else (a corrupt file, no permission, a missing column: caught
   * only by `load_and_prepare_data`), or it gives its rows.
   */
  datatype CompetencyFile = Missing | Unreadable | Rows(rows: seq<CompetencyRow>)

  /** The scale of the interest profiles. */
  const OccupationalInterest := "OI"

  /** The default scale of `_get_top_elements`. */
  const Importance := "IM"

  /** How many competencies are kept per occupation. */
  const TopCount := 5

  /** `n_clusters` of the KMeans model. */
  const ClusterCount := 8

  /** The interest element of each dimension; the rename gives it the column `Features[d]`. */
  const ElementIds: seq<string> := ["1.B.1.a", "1.B.1.b", "1.B.1.c", "1.B.1.d", "1.B.1.e", "1.B.1.f"]

  function SumReals(xs: seq<real>): real {
    if |xs| == 0 then 0.0 else SumReals(xs[..|xs| - 1]) + xs[|xs| - 1]
  }

  /** The arithmetic mean, which `pivot_table` uses to aggregate. */
  function Mean(xs: seq<real>): real
    requires |xs| > 0
  {
    SumReals(xs) / |xs| as real
  }

  /** A sum of values within `[lo, hi]` lies within `[|xs| * lo, |xs| * hi]`. */
  lemma {:induction false} SumBounds(xs: seq<real>, lo: real, hi: real)
    requires forall i :: 0 <= i < |xs| ==> lo <= xs[i] <= hi
    ensures |xs| as real * lo <= SumReals(xs) <= |xs| as real * hi
  {
    if |xs| > 0 {
      SumBounds(xs[..|xs| - 1], lo, hi);
    }
  }

  lemma MeanBounds(xs: seq<real>, lo: real, hi: real)
    requires |xs| > 0
    requires forall i :: 0 <= i < |xs| ==> lo <= xs[i] <= hi
    ensures lo <= Mean(xs) <= hi
  {
    SumBounds(xs, lo, hi);
    var n := |xs| as real;
    assert Mean(xs) * n == SumReals(xs);
  }

  // ----- get_cluster_name -----

  /**
   * The order of `nlargest(keep="first")`: a larger value comes first, and of
   * two equal values the one of the earlier dimension.
   */
  predicate Before(v: seq<real>, i: nat, j: nat)
    requires i < |v| && j < |v|
  {
    v[i] > v[j] || (v[i] == v[j] && i < j)
  }

  /** The first index of `k..|v|` outside `ex` in the order `Before`, or `|v|` when there is none. */
  function Best(v: seq<real>, ex: set<nat>, k: nat): (r: nat)
    requires k <= |v|
    ensures k <= r <= |v|
    ensures r < |v| ==> r !in ex
    decreases |v| - k
  {
    if k == |v| then |v|
    else
      var b := Best(v, ex, k + 1);
      if k in ex then b
      else if b == |v| || v[k] >= v[b] then k
      else b
  }

  /** `Best` finds a candidate whenever there is one. */
  lemma {:induction false} BestFinds(v: seq<real>, ex: set<nat>, k: nat, i: nat)
    requires k <= i < |v| && i !in ex
    ensures Best(v, ex, k) < |v|
    decreases |v| - k
  {
    if k < i {
      BestFinds(v, ex, k + 1, i);
    }
  }

  /** The index `Best` finds comes before every other candidate. */
  lemma {:induction false} BestIsFirst(v: seq<real>, ex: set<nat>, k: nat)
    requires k <= |v|
    ensures Best(v, ex, k) < |v| ==>
      forall i :: k <= i < |v| && i !in ex && i != Best(v, ex, k) ==> Before(v, Best(v, ex, k), i)
    decreases |v| - k
  {
    if k < |v| {
      BestIsFirst(v, ex, k + 1);
      var b := Best(v, ex, k + 1);
      if k !in ex && Best(v, ex, k) == k {
        forall i | k < i < |v| && i !in ex ensures Before(v, k, i) {
          BestFinds(v, ex, k + 1, i);
        }
      }
    }
  }

  /** With three indices or more, each of the three picks finds a candidate. */
  lemma PicksFound(v: seq<real>)
    requires |v| >= 3
    ensures var a := Best(v, {}, 0); var b := Best(v, {a}, 0);
      a < |v| && b < |v| && Best(v, {a, b}, 0) < |v|
  {
    var a := Best(v, {}, 0);
    BestFinds(v, {}, 0, 0);
    var b := Best(v, {a}, 0);
    BestFinds(v, {a}, 0, if a == 0 then 1 else 0);
    var i := if a != 0 && b != 0 then 0 else if a != 1 && b != 1 then 1 else 2;
    BestFinds(v, {a, b}, 0, i);
  }

  /** The three indices `center.nlargest(3).index` stands for. */
  function TopThree(v: seq<real>): (t: (nat, nat, nat))
    requires |v| >= 3
    ensures t.0 < |v| && t.1 < |v| && t.2 < |v|
  {
    PicksFound(v);
    var a := Best(v, {}, 0);
    var b := Best(v, {a}, 0);
    var c := Best(v, {a, b}, 0);
    (a, b, c)
  }

  /** `(x, y, z)` is the result of `nlargest(3)` with keep-first ties: in order, and ahead of every other index. */
  predicate IsTopThree(v: seq<real>, x: nat, y: nat, z: nat) {
    x < |v| && y < |v| && z < |v| && x != y && y != z && x != z
    && Before(v, x, y) && Before(v, y, z)
    && forall d :: 0 <= d < |v| && d != x && d != y && d != z ==> Before(v, z, d)
  }

  /** `TopThree` is the keep-first top three. */
  lemma TopThreeRanked(v: seq<real>)
    requires |v| >= 3
    ensures var (a, b, c) := TopThree(v); IsTopThree(v, a, b, c)
  {
    BestIsFirst(v, {}, 0);
    var a := Best(v, {}, 0);
    BestIsFirst(v, {a}, 0);
    var b := Best(v, {a}, 0);
    BestIsFirst(v, {a, b}, 0);
    PicksFound(v);
  }

  /** The first of a keep-first top three comes before every other index, the second before every index but the first. */
  lemma TopThreeLeads(v: seq<real>, x: nat, y: nat, z: nat)
    requires IsTopThree(v, x, y, z)
    ensures forall d :: 0 <= d < |v| && d != x ==> Before(v, x, d)
    ensures forall d :: 0 <= d < |v| && d != x && d != y ==> Before(v, y, d)
  {
    forall d | 0 <= d < |v| && d != x && d != y && d != z ensures Before(v, x, d) && Before(v, y, d) {
      assert Before(v, z, d);
    }
  }

  /** The keep-first top three is unique: any ranking with its properties is `TopThree`. */
  lemma TopThreeUnique(v: seq<real>, x: nat, y: nat, z: nat)
    requires |v| >= 3 && IsTopThree(v, x, y, z)
    ensures TopThree(v) == (x, y, z)
  {
    TopThreeRanked(v);
    var (a, b, c) := TopThree(v);
    TopThreeLeads(v, a, b, c);
    TopThreeLeads(v, x, y, z);
    assert a == x || (Before(v, a, x) && Before(v, x, a));
    assert b == y || (Before(v, b, y) && Before(v, y, b));
    assert c == z || (Before(v, c, z) && Before(v, z, c));
  }

  /** `get_cluster_name`: the letters of the three largest centroid values, joined with hyphens. */
  function ClusterName(center: Vector): (r: string)
    ensures |r| == 5 && r[1] == '-' && r[3] == '-'
    ensures r[0] in Letters && r[2] in Letters && r[4] in Letters
    ensures r[0] != r[2] && r[2] != r[4] && r[0] != r[4]
  {
    var (a, b, c) := TopThree(center);
    TopThreeRanked(center);
    FeatureLetters();
    [Features[a][0], '-', Features[b][0], '-', Features[c][0]]
  }

  /**
   * The letters of a cluster name name dimensions in non-increasing centroid
   * value; every other dimension has a value no larger than the third one, and
   * a tie goes to the dimension earlier in R, I, A, S, E, C.
   */
  lemma ClusterNameRanks(center: Vector)
    ensures var r := ClusterName(center);
      IsTopThree(center, LetterIndex(r[0]), LetterIndex(r[2]), LetterIndex(r[4]))
  {
    TopThreeRanked(center);
    FeatureLetters();
  }

  // ----- the scale filter -----

  /** `df[df["Scale ID"] == scale]`, for the interests table with `scale == "OI"`. */
  function ScaleRows(rows: seq<ScaleRow>, scale: string): (r: seq<ScaleRow>)
    ensures forall i :: 0 <= i < |r| ==> r[i].scaleId == scale
  {
    if |rows| == 0 then []
    else (if rows[0].scaleId == scale then [rows[0]] else []) + ScaleRows(rows[1..], scale)
  }

  /** The filter keeps exactly the rows on the scale. */
  lemma {:induction false} ScaleRowsMembers(rows: seq<ScaleRow>, scale: string, x: ScaleRow)
    ensures x in ScaleRows(rows, scale) <==> x in rows && x.scaleId == scale
  {
    if |rows| > 0 {
      ScaleRowsMembers(rows[1..], scale, x);
      assert rows == [rows[0]] + rows[1..];
    }
  }

  lemma {:induction false} ScaleRowsAppend(a: seq<ScaleRow>, b: seq<ScaleRow>, scale: string)
    ensures ScaleRows(a + b, scale) == ScaleRows(a, scale) + ScaleRows(b, scale)
  {
    if |a| > 0 {
      assert (a + b)[0] == a[0];
      assert (a + b)[1..] == a[1..] + b;
      ScaleRowsAppend(a[1..], b, scale);
    } else {
      assert a + b == b;
    }
  }

  lemma {:induction false} ScaleRowsNone(rows: seq<ScaleRow>, scale: string)
    requires forall i :: 0 <= i < |rows| ==> rows[i].scaleId != scale
    ensures ScaleRows(rows, scale) == []
  {
    if |rows| > 0 {
      ScaleRowsNone(rows[1..], scale);
    }
  }

  /** A row multiset restricted to one scale keeps exactly that scale's rows. */
  lemma {:induction false} ScaleRowsCount(rows: seq<ScaleRow>, scale: string, x: ScaleRow)
    ensures multiset(ScaleRows(rows, scale))[x] == if x.scaleId == scale then multiset(rows)[x] else 0
  {
    if |rows| > 0 {
      ScaleRowsCount(rows[1..], scale, x);
      assert rows == [rows[0]] + rows[1..];
    }
  }

  // ----- the interest profiles -----

  /** The values of the rows of one pivot cell: the given code and element. */
  function CellValues(rows: seq<InterestRow>, code: string, element: string): (r: seq<real>)
    ensures forall i :: 0 <= i < |r| ==> exists x :: x in rows && x.code == code && x.element == element && x.value == r[i]
    ensures |r| == 0 <==> forall x :: x in rows ==> !(x.code == code && x.element == element)
  {
    if |rows| == 0 then []
    else
      var rest := CellValues(rows[1..], code, element);
      assert forall x :: x in rows[1..] ==> x in rows;
      if rows[0].code == code && rows[0].element == element then [rows[0].value] + rest else rest
  }

  /** A cell of `pivot_table(index=code, columns=element, values=value)`: the mean, or NaN without rows. */
  function PivotCell(rows: seq<InterestRow>, code: string, element: string): Option<real> {
    var xs := CellValues(rows, code, element);
    if |xs| == 0 then None else Some(Mean(xs))
  }

  /** A code is in the pivot's index when it has at least one row. */
  predicate InPivot(rows: seq<InterestRow>, code: string) {
    exists x :: x in rows && x.code == code
  }

  /** An element is a column of the pivot when it has at least one row. */
  predicate HasColumn(rows: seq<InterestRow>, element: string) {
    exists x :: x in rows && x.element == element
  }

  /** A row of the joined table before clustering: the occupation and its six (possibly missing) scores. */
  datatype Profile = Profile(code: string, title: string, scores: seq<Option<real>>)

  function ProfileOf(oi: seq<InterestRow>, job: Job): (p: Profile)
    ensures p.code == job.code && p.title == job.title && |p.scores| == 6
  {
    Profile(job.code, job.title, seq(6, d requires 0 <= d < 6 => PivotCell(oi, job.code, ElementIds[d])))
  }

  /** `df_jobs.join(df_riasec_profiles, how="inner")`: the jobs that have a profile, in the order of the occupation table. */
  function JoinProfiles(jobs: seq<Job>, oi: seq<InterestRow>): (r: seq<Profile>)
    ensures |r| <= |jobs|
    ensures forall i :: 0 <= i < |r| ==> |r[i].scores| == 6
  {
    if |jobs| == 0 then []
    else (if InPivot(oi, jobs[0].code) then [ProfileOf(oi, jobs[0])] else []) + JoinProfiles(jobs[1..], oi)
  }

  /** Row `i` of the join is the profile of an occupation `j` (at or after position `i`) that has an interest row. */
  lemma {:induction false} JoinProfilesSound(jobs: seq<Job>, oi: seq<InterestRow>, i: nat) returns (j: nat)
    requires i < |JoinProfiles(jobs, oi)|
    ensures i <= j < |jobs| && JoinProfiles(jobs, oi)[i] == ProfileOf(oi, jobs[j]) && InPivot(oi, jobs[j].code)
  {
    var tail := JoinProfiles(jobs[1..], oi);
    if InPivot(oi, jobs[0].code) {
      assert JoinProfiles(jobs, oi) == [ProfileOf(oi, jobs[0])] + tail;
      if i == 0 {
        j := 0;
      } else {
        var k := JoinProfilesSound(jobs[1..], oi, i - 1);
        assert jobs[1..][k] == jobs[k + 1];
        j := k + 1;
      }
    } else {
      assert JoinProfiles(jobs, oi) == tail;
      var k := JoinProfilesSound(jobs[1..], oi, i);
      assert jobs[1..][k] == jobs[k + 1];
      j := k + 1;
    }
  }

  /** Every occupation that has an interest row keeps its profile in the join. */
  lemma {:induction false} JoinProfilesComplete(jobs: seq<Job>, oi: seq<InterestRow>)
    ensures forall j :: 0 <= j < |jobs| && InPivot(oi, jobs[j].code) ==> ProfileOf(oi, jobs[j]) in JoinProfiles(jobs, oi)
  {
    if |jobs| > 0 {
      JoinProfilesComplete(jobs[1..], oi);
      var r := JoinProfiles(jobs, oi);
      assert r == (if InPivot(oi, jobs[0].code) then [ProfileOf(oi, jobs[0])] else []) + JoinProfiles(jobs[1..], oi);
      forall j | 0 <= j < |jobs| && InPivot(oi, jobs[j].code) ensures ProfileOf(oi, jobs[j]) in r {
        if j > 0 {
          assert jobs[j] == jobs[1..][j - 1];
        }
      }
    }
  }

  /** When every occupation has an interest row, the join drops none of them. */
  lemma {:induction false} JoinProfilesAll(jobs: seq<Job>, oi: seq<InterestRow>)
    requires forall j :: 0 <= j < |jobs| ==> InPivot(oi, jobs[j].code)
    ensures |JoinProfiles(jobs, oi)| == |jobs|
  {
    if |jobs| > 0 {
      forall j | 0 <= j < |jobs[1..]| ensures InPivot(oi, jobs[1..][j].code) {
        assert jobs[1..][j] == jobs[j + 1];
      }
      JoinProfilesAll(jobs[1..], oi);
    }
  }

  /** A score of the joined table is missing exactly when the occupation has no row for that element. */
  lemma ProfileScoreMissing(oi: seq<InterestRow>, job: Job, d: Dim)
    ensures ProfileOf(oi, job).scores[d].None? <==>
      forall x :: x in oi ==> !(x.code == job.code && x.element == ElementIds[d])
  {
  }

  /** A present score lies between the smallest and the largest value of the occupation's rows for that element. */
  lemma ProfileScoreBounds(oi: seq<InterestRow>, job: Job, d: Dim, lo: real, hi: real)
    requires forall x :: x in oi && x.code == job.code && x.element == ElementIds[d] ==> lo <= x.value <= hi
    ensures ProfileOf(oi, job).scores[d].Some? ==> lo <= ProfileOf(oi, job).scores[d].value <= hi
  {
    var xs := CellValues(oi, job.code, ElementIds[d]);
    if |xs| > 0 {
      MeanBounds(xs, lo, hi);
    }
  }

  /** `job_scores = df_job_profiles[features].fillna(0)`: the clustering input, a missing score read as 0. */
  function ScoreVector(scores: seq<Option<real>>): (v: Vector)
    requires |scores| == 6
    ensures forall d: Dim :: v[d] == if scores[d].Some? then scores[d].value else 0.0
  {
    seq(6, d requires 0 <= d < 6 => scores[d].GetOr(0.0))
  }

  function ScoreMatrix(ps: seq<Profile>): (m: seq<Vector>)
    requires forall i :: 0 <= i < |ps| ==> |ps[i].scores| == 6
    ensures |m| == |ps| && forall i :: 0 <= i < |ps| ==> m[i] == ScoreVector(ps[i].scores)
  {
    seq(|ps|, i requires 0 <= i < |ps| => ScoreVector(ps[i].scores))
  }

  // ----- clustering -----

  /**
   * What the KMeans model reports for the score matrix: one label per row and
   * the centroids (`cluster_centers_`), each with a value per dimension.
   */
  datatype Clustering = Clustering(labels: seq<int>, centers: seq<seq<real>>)

  /** A row of the prepared occupation table. */
  datatype JobProfile = JobProfile(code: string, title: string, scores: seq<Option<real>>, cluster: int, clusterName: Option<string>)

  /** `cluster_centers.apply(get_cluster_name, axis=1).to_dict()` looked up by `Series.map`: NaN for an unknown cluster id. */
  function NameOfCluster(centers: seq<Vector>, id: int): Option<string> {
    if 0 <= id < |centers| then Some(ClusterName(centers[id])) else None
  }

  function Labelled(ps: seq<Profile>, labels: seq<int>, centers: seq<Vector>): (r: seq<JobProfile>)
    requires |labels| == |ps|
    ensures |r| == |ps|
  {
    seq(|ps|, i requires 0 <= i < |ps| =>
      JobProfile(ps[i].code, ps[i].title, ps[i].scores, labels[i], NameOfCluster(centers, labels[i])))
  }

  predicate AllVectors(m: seq<seq<real>>) {
    forall i :: 0 <= i < |m| ==> |m[i]| == 6
  }

  // ----- _get_top_elements -----

  /** `sort_values("Data Value", ascending=False)`: values never increase. */
  predicate SortedDesc(rows: seq<CompetencyRow>) {
    forall i, j :: 0 <= i < j < |rows| ==> rows[i].value >= rows[j].value
  }

  /** `sorted` is one of the orders `sort_values` may produce from `rows` (the sort is not stable). */
  predicate IsDescOrder(sorted: seq<CompetencyRow>, rows: seq<CompetencyRow>) {
    SortedDesc(sorted) && multiset(sorted) == multiset(rows)
  }

  /** The rows of one occupation code, in table order: a group of `groupby("O*NET-SOC Code")`. */
  function Group(rows: seq<CompetencyRow>, code: string): (r: seq<CompetencyRow>)
    ensures forall i :: 0 <= i < |r| ==> r[i].code == code
  {
    if |rows| == 0 then []
    else (if rows[0].code == code then [rows[0]] else []) + Group(rows[1..], code)
  }

  lemma {:induction false} GroupCount(rows: seq<CompetencyRow>, code: string, x: CompetencyRow)
    ensures multiset(Group(rows, code))[x] == if x.code == code then multiset(rows)[x] else 0
  {
    if |rows| > 0 {
      GroupCount(rows[1..], code, x);
      assert rows == [rows[0]] + rows[1..];
    }
  }

  /** Rows with the same multiset have groups with the same multiset. */
  lemma GroupPermutation(s: seq<CompetencyRow>, t: seq<CompetencyRow>, code: string)
    requires multiset(s) == multiset(t)
    ensures multiset(Group(s, code)) == multiset(Group(t, code))
  {
    forall x ensures multiset(Group(s, code))[x] == multiset(Group(t, code))[x] {
      GroupCount(s, code, x);
      GroupCount(t, code, x);
    }
  }

  /** A group of a sorted table is sorted. */
  lemma {:induction false} GroupSorted(rows: seq<CompetencyRow>, code: string)
    requires SortedDesc(rows)
    ensures SortedDesc(Group(rows, code))
    ensures forall i :: 0 <= i < |Group(rows, code)| ==> Group(rows, code)[i] in rows
  {
    if |rows| > 0 {
      var tail := rows[1..];
      assert SortedDesc(tail) by {
        forall i, j | 0 <= i < j < |tail| ensures tail[i].value >= tail[j].value {
          assert tail[i] == rows[i + 1] && tail[j] == rows[j + 1];
        }
      }
      GroupSorted(tail, code);
      var g, gt := Group(rows, code), Group(tail, code);
      forall i | 0 <= i < |gt| ensures gt[i] in rows && rows[0].value >= gt[i].value {
        var k :| 0 <= k < |tail| && tail[k] == gt[i];
        assert rows[k + 1] == gt[i];
      }
      if rows[0].code == code {
        assert g == [rows[0]] + gt;
        forall i, j | 0 <= i < j < |g| ensures g[i].value >= g[j].value {
          if i > 0 {
            assert g[i] == gt[i - 1];
          }
          assert g[j] == gt[j - 1];
        }
      }
    }
  }

  function ElementNames(rows: seq<CompetencyRow>): (r: seq<string>)
    ensures |r| == |rows| && forall i :: 0 <= i < |rows| ==> r[i] == rows[i].element
  {
    seq(|rows|, i requires 0 <= i < |rows| => rows[i].element)
  }

  function Codes(rows: seq<CompetencyRow>): set<string> {
    set x | x in rows :: x.code
  }

  /** `.groupby(code).head(5)`, then `.groupby(code)["Element Name"].apply(list).to_dict()` on a sorted table. */
  function TopElements(sorted: seq<CompetencyRow>): map<string, seq<string>> {
    map c | c in Codes(sorted) :: ElementNames(TakeTop(Group(sorted, c)))
  }

  /** The first five rows of a group (`head(5)`). */
  function TakeTop(g: seq<CompetencyRow>): (r: seq<CompetencyRow>)
    ensures |r| == if |g| < TopCount then |g| else TopCount
    ensures r == g[..|r|]
  {
    if |g| <= TopCount then g else g[..TopCount]
  }

  /** Every row of a valid order is a row of the table on the scale. */
  lemma OrderRows(rows: seq<CompetencyRow>, scale: string, sorted: seq<CompetencyRow>)
    requires IsDescOrder(sorted, ScaleRows(rows, scale))
    ensures forall x :: x in sorted ==> x in rows && x.scaleId == scale
  {
    forall x | x in sorted ensures x in rows && x.scaleId == scale {
      assert x in multiset(ScaleRows(rows, scale));
      ScaleRowsCount(rows, scale, x);
    }
  }

  /** For any order `sort_values` may produce, a code is a key exactly when it has a row on the scale. */
  lemma TopElementsKeys(rows: seq<CompetencyRow>, scale: string, sorted: seq<CompetencyRow>, code: string)
    requires IsDescOrder(sorted, ScaleRows(rows, scale))
    ensures code in TopElements(sorted) <==> exists x :: x in rows && x.scaleId == scale && x.code == code
  {
    OrderRows(rows, scale, sorted);
    if exists x :: x in rows && x.scaleId == scale && x.code == code {
      var x :| x in rows && x.scaleId == scale && x.code == code;
      ScaleRowsCount(rows, scale, x);
      assert x in multiset(sorted);
    }
  }

  /** A code with `k` rows on the scale lists min(5, k) names, whichever order `sort_values` produces. */
  lemma TopElementsCount(rows: seq<CompetencyRow>, scale: string, sorted: seq<CompetencyRow>, code: string)
    requires IsDescOrder(sorted, ScaleRows(rows, scale))
    requires code in TopElements(sorted)
    ensures var k := |Group(ScaleRows(rows, scale), code)|;
      |TopElements(sorted)[code]| == if k < TopCount then k else TopCount
  {
    GroupPermutation(sorted, ScaleRows(rows, scale), code);
    assert |Group(sorted, code)| == |multiset(Group(sorted, code))|;
  }

  /** The first five rows of a group of a sorted table are sorted, and lead the rest of the group. */
  lemma GroupTopRanked(sorted: seq<CompetencyRow>, code: string)
    requires SortedDesc(sorted)
    ensures var g := Group(sorted, code);
      SortedDesc(TakeTop(g))
      && (forall i :: 0 <= i < |TakeTop(g)| ==> TakeTop(g)[i] in sorted && TakeTop(g)[i].code == code)
      && (forall i, j :: 0 <= i < |TakeTop(g)| <= j < |g| ==> TakeTop(g)[i].value >= g[j].value)
  {
    GroupSorted(sorted, code);
    var g := Group(sorted, code);
    var listed := TakeTop(g);
    forall i, j | 0 <= i < j < |listed| ensures listed[i].value >= listed[j].value {
      assert listed[i] == g[i] && listed[j] == g[j];
    }
    forall i | 0 <= i < |listed| ensures listed[i] in sorted && listed[i].code == code {
      assert listed[i] == g[i];
    }
    forall i, j | 0 <= i < |listed| <= j < |g| ensures listed[i].value >= g[j].value {
      assert listed[i] == g[i];
    }
  }

  /**
   * For any order `sort_values` may produce, the names listed for a code are
   * those of its first rows in that order, in non-increasing value, each a row
   * of the code on the scale; the group holds exactly the code's rows on the
   * scale, and each of them that is not listed has a value no larger than every
   * listed one.
   */
  lemma TopElementsRanked(rows: seq<CompetencyRow>, scale: string, sorted: seq<CompetencyRow>, code: string)
    requires IsDescOrder(sorted, ScaleRows(rows, scale))
    requires code in TopElements(sorted)
    ensures var g := Group(sorted, code);
      var listed := TakeTop(g);
      TopElements(sorted)[code] == ElementNames(listed)
      && SortedDesc(listed)
      && (forall i :: 0 <= i < |listed| ==> listed[i] in rows && listed[i].scaleId == scale && listed[i].code == code)
      && multiset(g) == multiset(Group(ScaleRows(rows, scale), code))
      && (forall i, j :: 0 <= i < |listed| <= j < |g| ==> listed[i].value >= g[j].value)
  {
    OrderRows(rows, scale, sorted);
    GroupPermutation(sorted, ScaleRows(rows, scale), code);
    GroupTopRanked(sorted, code);
  }

  /** Inserts a row after every row with at least its value. */
  function InsertDesc(x: CompetencyRow, s: seq<CompetencyRow>): (r: seq<CompetencyRow>)
    ensures multiset(r) == multiset(s) + multiset{x}
  {
    if |s| == 0 || s[0].value < x.value then [x] + s
    else
      assert s == [s[0]] + s[1..];
      [s[0]] + InsertDesc(x, s[1..])
  }

  /** Every row of `s` has a value of at most `v`. */
  predicate AllAtMost(s: seq<CompetencyRow>, v: real) {
    forall i :: 0 <= i < |s| ==> s[i].value <= v
  }

  lemma {:induction false} InsertDescAtMost(x: CompetencyRow, s: seq<CompetencyRow>, v: real)
    requires AllAtMost(s, v) && x.value <= v
    ensures AllAtMost(InsertDesc(x, s), v)
  {
    if |s| > 0 && s[0].value >= x.value {
      InsertDescAtMost(x, s[1..], v);
      var r := InsertDesc(x, s);
      assert r == [s[0]] + InsertDesc(x, s[1..]);
    }
  }

  lemma ConsSorted(y: CompetencyRow, s: seq<CompetencyRow>)
    requires SortedDesc(s) && AllAtMost(s, y.value)
    ensures SortedDesc([y] + s)
  {
    var r := [y] + s;
    forall i, j | 0 <= i < j < |r| ensures r[i].value >= r[j].value {
      assert r[j] == s[j - 1];
      if i > 0 {
        assert r[i] == s[i - 1];
      }
    }
  }

  lemma SortedTail(s: seq<CompetencyRow>)
    requires SortedDesc(s) && |s| > 0
    ensures SortedDesc(s[1..]) && AllAtMost(s[1..], s[0].value)
  {
    var t := s[1..];
    forall i, j | 0 <= i < j < |t| ensures t[i].value >= t[j].value {
      assert t[i] == s[i + 1] && t[j] == s[j + 1];
    }
    forall i | 0 <= i < |t| ensures t[i].value <= s[0].value {
      assert t[i] == s[i + 1];
    }
  }

  lemma {:induction false} InsertDescSorted(x: CompetencyRow, s: seq<CompetencyRow>)
    requires SortedDesc(s)
    ensures SortedDesc(InsertDesc(x, s))
  {
    if |s| == 0 || s[0].value < x.value {
      if |s| > 0 {
        assert AllAtMost(s, x.value) by {
          SortedTail(s);
          forall i | 0 < i < |s| ensures s[i].value <= x.value {
            assert s[i] == s[1..][i - 1];
          }
        }
      }
      ConsSorted(x, s);
    } else {
      SortedTail(s);
      InsertDescSorted(x, s[1..]);
      InsertDescAtMost(x, s[1..], s[0].value);
      ConsSorted(s[0], InsertDesc(x, s[1..]));
    }
  }

  /** An insertion sort by descending value: one of the orders `sort_values` may produce. */
  function SortDesc(rows: seq<CompetencyRow>): (r: seq<CompetencyRow>)
    ensures multiset(r) == multiset(rows)
  {
    if |rows| == 0 then []
    else
      assert rows == [rows[0]] + rows[1..];
      InsertDesc(rows[0], SortDesc(rows[1..]))
  }

  lemma {:induction false} SortDescSorted(rows: seq<CompetencyRow>)
    ensures IsDescOrder(SortDesc(rows), rows)
  {
    if |rows| > 0 {
      SortDescSorted(rows[1..]);
      InsertDescSorted(rows[0], SortDesc(rows[1..]));
    }
  }

  /**
   * `_get_top_elements(filename, scale_id_filter="IM")`: a missing file gives
   * `{}`, any other read error escapes (`None`), and the rows give the top five
   * names per code on the scale.
   */
  function GetTopElements(file: CompetencyFile, scale: string := Importance): (r: Option<map<string, seq<string>>>)
    ensures file.Missing? ==> r == Some(map[])
    ensures file.Unreadable? ==> r.None?
    ensures file.Rows? ==> IsDescOrder(SortDesc(ScaleRows(file.rows, scale)), ScaleRows(file.rows, scale))
    ensures file.Rows? ==> r == Some(TopElements(SortDesc(ScaleRows(file.rows, scale))))
  {
    match file
    case Missing => Some(map[])
    case Unreadable => None
    case Rows(rows) =>
      SortDescSorted(ScaleRows(rows, scale));
      Some(TopElements(SortDesc(ScaleRows(rows, scale))))
  }

  /** Rows on another scale do not change the result. */
  lemma TopElementsIgnoreOtherScales(rows: seq<CompetencyRow>, extra: seq<CompetencyRow>, scale: string)
    requires forall i :: 0 <= i < |extra| ==> extra[i].scaleId != scale
    ensures GetTopElements(Rows(rows + extra), scale) == GetTopElements(Rows(rows), scale)
  {
    ScaleRowsAppend(rows, extra, scale);
    ScaleRowsNone(extra, scale);
    assert ScaleRows(rows + extra, scale) == ScaleRows(rows, scale);
  }

  // ----- load_and_prepare_data -----

  /** The four results of a successful load. */
  datatype Prepared = Prepared(
    jobs: seq<JobProfile>,
    knowledge: map<string, seq<string>>,
    skills: map<string, seq<string>>,
    abilities: map<string, seq<string>>)

  /**
   * `load_and_prepare_data`. The occupation and interest files are `None` when
   * reading them raises; `kmeans` is what `KMeans(n_clusters=8).fit_predict`
   * reports for the filled score matrix of the joined table. Every failure (an
   * unreadable occupation or interest file, a missing score column, fewer rows
   * than clusters, a clustering of the wrong shape, a competency file that
   * raises) gives the four `None`s, written here as `None`.
   */
  function LoadAndPrepare(
    jobsFile: Option<seq<Job>>, interestsFile: Option<seq<InterestRow>>, kmeans: seq<Vector> -> Clustering,
    knowledgeFile: CompetencyFile, skillsFile: CompetencyFile, abilitiesFile: CompetencyFile): (r: Option<Prepared>)
    ensures jobsFile.None? || interestsFile.None? ==> r.None?
  {
    if jobsFile.None? || interestsFile.None? then None
    else
      var oi := ScaleRows(interestsFile.value, OccupationalInterest);
      if exists d: Dim :: !HasColumn(oi, ElementIds[d]) then None
      else
        var profiles := JoinProfiles(jobsFile.value, oi);
        var fit := kmeans(ScoreMatrix(profiles));
        if |profiles| < ClusterCount || |fit.labels| != |profiles| || !AllVectors(fit.centers) then None
        else
          var knowledge, skills, abilities := GetTopElements(knowledgeFile), GetTopElements(skillsFile), GetTopElements(abilitiesFile);
          if knowledge.None? || skills.None? || abilities.None? then None
          else Some(Prepared(Labelled(profiles, fit.labels, fit.centers), knowledge.value, skills.value, abilities.value))
  }

  /** What a successful load guarantees the routes: at least one row per cluster, and six scores in every row. */
  predicate Shaped(p: Prepared) {
    |p.jobs| >= ClusterCount && forall i :: 0 <= i < |p.jobs| ==> |p.jobs[i].scores| == 6
  }

  /**
   * On success every occupation carries the KMeans label of its row of the
   * filled score matrix, its cluster name is the name computed from its own
   * cluster's centroid (missing for a label with no centroid), and its scores
   * are those of the join.
   */
  lemma LoadAndPrepareJobs(
    jobsFile: Option<seq<Job>>, interestsFile: Option<seq<InterestRow>>, kmeans: seq<Vector> -> Clustering,
    kf: CompetencyFile, sf: CompetencyFile, af: CompetencyFile)
    requires LoadAndPrepare(jobsFile, interestsFile, kmeans, kf, sf, af).Some?
    ensures var p := LoadAndPrepare(jobsFile, interestsFile, kmeans, kf, sf, af).value;
      var profiles := JoinProfiles(jobsFile.value, ScaleRows(interestsFile.value, OccupationalInterest));
      var fit := kmeans(ScoreMatrix(profiles));
      |p.jobs| == |profiles| == |fit.labels| >= ClusterCount
      && forall i :: 0 <= i < |p.jobs| ==>
        p.jobs[i].code == profiles[i].code && p.jobs[i].title == profiles[i].title
        && p.jobs[i].scores == profiles[i].scores
        && p.jobs[i].cluster == fit.labels[i]
        && p.jobs[i].clusterName
           == (if 0 <= fit.labels[i] < |fit.centers| then Some(ClusterName(fit.centers[fit.labels[i]])) else None)
    ensures var p := LoadAndPrepare(jobsFile, interestsFile, kmeans, kf, sf, af).value;
      Some(p.knowledge) == GetTopElements(kf) && Some(p.skills) == GetTopElements(sf)
      && Some(p.abilities) == GetTopElements(af)
  {
  }

  /** A successful load is shaped for the routes. */
  lemma LoadAndPrepareShaped(
    jobsFile: Option<seq<Job>>, interestsFile: Option<seq<InterestRow>>, kmeans: seq<Vector> -> Clustering,
    kf: CompetencyFile, sf: CompetencyFile, af: CompetencyFile)
    requires LoadAndPrepare(jobsFile, interestsFile, kmeans, kf, sf, af).Some?
    ensures Shaped(LoadAndPrepare(jobsFile, interestsFile, kmeans, kf, sf, af).value)
  {
    LoadAndPrepareJobs(jobsFile, interestsFile, kmeans, kf, sf, af);
  }

  /**
   * A load fails when a score column has no interest row at all, when fewer
   * occupations than clusters are joined, when the clustering does not label
   * every joined row, or when a competency file raises.
   */
  lemma LoadAndPrepareFailures(
    jobs: seq<Job>, interests: seq<InterestRow>, kmeans: seq<Vector> -> Clustering,
    kf: CompetencyFile, sf: CompetencyFile, af: CompetencyFile)
    ensures (exists d: Dim :: !HasColumn(ScaleRows(interests, OccupationalInterest), ElementIds[d])) ==>
      LoadAndPrepare(Some(jobs), Some(interests), kmeans, kf, sf, af).None?
    ensures |JoinProfiles(jobs, ScaleRows(interests, OccupationalInterest))| < ClusterCount ==>
      LoadAndPrepare(Some(jobs), Some(interests), kmeans, kf, sf, af).None?
    ensures var profiles := JoinProfiles(jobs, ScaleRows(interests, OccupationalInterest));
      |kmeans(ScoreMatrix(profiles)).labels| != |profiles| ==>
      LoadAndPrepare(Some(jobs), Some(interests), kmeans, kf, sf, af).None?
    ensures kf.Unreadable? || sf.Unreadable? || af.Unreadable? ==>
      LoadAndPrepare(Some(jobs), Some(interests), kmeans, kf, sf, af).None?
  {
  }

  /**
   * Conversely, readable files, all six score columns, enough rows, a
   * well-shaped clustering and competency files that are missing or read give a result.
   */
  lemma {:induction false} LoadAndPrepareSucceeds(
    jobs: seq<Job>, interests: seq<InterestRow>, kmeans: seq<Vector> -> Clustering,
    kf: CompetencyFile, sf: CompetencyFile, af: CompetencyFile)
    requires forall d: Dim :: HasColumn(ScaleRows(interests, OccupationalInterest), ElementIds[d])
    requires var profiles := JoinProfiles(jobs, ScaleRows(interests, OccupationalInterest));
      var fit := kmeans(ScoreMatrix(profiles));
      |profiles| >= ClusterCount && |fit.labels| == |profiles| && AllVectors(fit.centers)
    requires !kf.Unreadable? && !sf.Unreadable? && !af.Unreadable?
    ensures LoadAndPrepare(Some(jobs), Some(interests), kmeans, kf, sf, af).Some?
  {
  }

  /** Interest rows on another scale than "OI" do not change the result. */
  lemma LoadIgnoresOtherScales(
    jobsFile: Option<seq<Job>>, interests: seq<InterestRow>, extra: seq<InterestRow>, kmeans: seq<Vector> -> Clustering,
    kf: CompetencyFile, sf: CompetencyFile, af: CompetencyFile)
    requires forall i :: 0 <= i < |extra| ==> extra[i].scaleId != OccupationalInterest
    ensures LoadAndPrepare(jobsFile, Some(interests + extra), kmeans, kf, sf, af)
         == LoadAndPrepare(jobsFile, Some(interests), kmeans, kf, sf, af)
  {
    ScaleRowsAppend(interests, extra, OccupationalInterest);
    ScaleRowsNone(extra, OccupationalInterest);
    assert ScaleRows(interests, OccupationalInterest) + [] == ScaleRows(interests, OccupationalInterest);
  }
}
