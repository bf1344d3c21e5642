/** The read-only SQL of the handlers as functions over the tables:
    WHERE filters, COUNT(*), AVG and GROUP BY. */
module Queries {
  import opened Wrappers
  import opened Records

  /** SELECT * ... WHERE p, in table order. */
  function Where<T(==,!new)>(s: seq<T>, p: T -> bool): (r: seq<T>)
    ensures |r| <= |s|
    ensures forall x :: multiset(r)[x] == if p(x) then multiset(s)[x] else 0
    ensures forall x :: x in r <==> x in s && p(x)
  {
    if s == [] then []
    else
      var rest := Where(s[..|s| - 1], p);
      assert s == s[..|s| - 1] + [s[|s| - 1]];
      if p(s[|s| - 1]) then rest + [s[|s| - 1]] else rest
  }

  lemma WhereSnoc<T(!new)>(s: seq<T>, x: T, p: T -> bool)
    ensures Where(s + [x], p) == if p(x) then Where(s, p) + [x] else Where(s, p)
  {
    assert (s + [x])[..|s|] == s;
  }

  /** The row numbers p holds of. */
  function RowsWhere<T>(s: seq<T>, p: T -> bool): set<nat> {
    set i: nat | i < |s| && p(s[i])
  }

  lemma RowsWhereSnoc<T>(s: seq<T>, x: T, p: T -> bool)
    ensures RowsWhere(s + [x], p) == RowsWhere(s, p) + (if p(x) then {|s|} else {})
  {
    var t := s + [x];
    forall i: nat | i < |s| ensures t[i] == s[i] { }
    assert t[|s|] == x;
  }

  /** COUNT(*) ... WHERE p is the number of rows p holds of. */
  lemma {:induction false} WhereCountsRows<T(!new)>(s: seq<T>, p: T -> bool)
    ensures |Where(s, p)| == |RowsWhere(s, p)|
  {
    if s != [] {
      var n := |s| - 1;
      var init := s[..n];
      assert s == init + [s[n]];
      WhereCountsRows(init, p);
      WhereSnoc(init, s[n], p);
      RowsWhereSnoc(init, s[n], p);
      assert n !in RowsWhere(init, p);
    }
  }

  /** The rows in the opposite order: ORDER BY created_at DESC over a table
      whose rows were stamped in insertion order. */
  function Reversed<T(!new)>(s: seq<T>): (r: seq<T>)
    ensures |r| == |s|
    ensures forall i :: 0 <= i < |s| ==> r[i] == s[|s| - 1 - i]
    ensures multiset(r) == multiset(s)
    ensures forall x :: x in r <==> x in s
  {
    if s == [] then []
    else
      var init := s[..|s| - 1];
      assert s == init + [s[|s| - 1]];
      [s[|s| - 1]] + Reversed(init)
  }

  // ---------------------------------------------------------------------
  // Complaints

  /** SELECT * FROM complaints WHERE user_id = ?; a NULL user_id matches nothing. */
  function ComplaintsOf(complaints: seq<Complaint>, userId: int): seq<Complaint> {
    Where(complaints, (c: Complaint) => c.userId == Some(userId))
  }

  /** GET /complaints: an admin sees every complaint, anyone else exactly
      the complaints filed under their own id; newest first. */
  function VisibleComplaints(complaints: seq<Complaint>, caller: User): (r: seq<Complaint>)
    ensures caller.role == ADMIN ==>
              |r| == |complaints| && forall i :: 0 <= i < |r| ==> r[i] == complaints[|complaints| - 1 - i]
    ensures forall c :: c in r <==> c in complaints && (caller.role == ADMIN || c.userId == Some(caller.id))
    ensures forall c :: multiset(r)[c] ==
              if caller.role == ADMIN || c.userId == Some(caller.id) then multiset(complaints)[c] else 0
  {
    if caller.role == ADMIN then Reversed(complaints)
    else
      var mine := ComplaintsOf(complaints, caller.id);
      assert forall c :: multiset(mine)[c] == if c.userId == Some(caller.id) then multiset(complaints)[c] else 0;
      Reversed(mine)
  }

  /** Status IN ('New', 'In Review'). */
  predicate IsPending(c: Complaint) {
    c.status == NEW || c.status == IN_REVIEW
  }

  function InCategory(complaints: seq<Complaint>, category: string): seq<Complaint> {
    Where(complaints, (c: Complaint) => c.category == category)
  }

  // ---------------------------------------------------------------------
  // Certificates

  predicate IsActive(c: Certificate) {
    c.status == ACTIVE
  }

  /** GET /certificates: the rows whose status is Active. */
  function ActiveCertificates(certificates: seq<Certificate>): (r: seq<Certificate>)
    ensures forall c :: c in r <==> c in certificates && c.status == ACTIVE
    ensures forall c :: multiset(r)[c] == if c.status == ACTIVE then multiset(certificates)[c] else 0
  {
    Where(certificates, IsActive)
  }

  /** GET /certificates/{cert_number}: the first row with that number, or 404. */
  function FindCertificate(certificates: seq<Certificate>, certNumber: string): (r: Result<Certificate>)
    ensures r.Err? <==> forall i :: 0 <= i < |certificates| ==> certificates[i].certNumber != certNumber
    ensures r.Ok? ==> r.value in certificates && r.value.certNumber == certNumber
    ensures r.Err? ==> r.error == NotFound("Certificate not found") && r.error.StatusCode() == 404
  {
    if certificates == [] then Err(NotFound("Certificate not found"))
    else if certificates[0].certNumber == certNumber then Ok(certificates[0])
    else
      var r := FindCertificate(certificates[1..], certNumber);
      assert forall i :: 1 <= i < |certificates| ==> certificates[i] == certificates[1..][i - 1];
      r
  }

  // ---------------------------------------------------------------------
  // Ratings

  datatype Aspect = Transport | Conditions | Equipment | Wages

  function Score(r: Rating, a: Aspect): int {
    match a
    case Transport => r.transport
    case Conditions => r.conditions
    case Equipment => r.equipment
    case Wages => r.wages
  }

  function Total(ratings: seq<Rating>, a: Aspect): int {
    if ratings == [] then 0 else Total(ratings[..|ratings| - 1], a) + Score(ratings[|ratings| - 1], a)
  }

  /** SQL AVG over the rows, exactly: NULL on no rows, else sum / count. */
  function Average(ratings: seq<Rating>, a: Aspect): (avg: Option<real>)
    ensures avg.None? <==> ratings == []
    ensures avg.Some? ==> avg.value * |ratings| as real == Total(ratings, a) as real
  {
    if ratings == [] then None else Some(Total(ratings, a) as real / |ratings| as real)
  }

  /** WHERE farmer_id = ?. */
  function OfFarmer(farmerId: int): Rating -> bool {
    (r: Rating) => r.farmerId == farmerId
  }

  function RatingsFor(ratings: seq<Rating>, farmerId: int): seq<Rating> {
    Where(ratings, OfFarmer(farmerId))
  }

  datatype RatingSummary = RatingSummary(
    avgTransport: Option<real>,
    avgConditions: Option<real>,
    avgEquipment: Option<real>,
    avgWages: Option<real>,
    totalRatings: nat)

  /** The sum of one score over the ratings a farmer received, taken over
      the whole table. */
  function ScoreSum(ratings: seq<Rating>, farmerId: int, a: Aspect): int {
    if ratings == [] then 0
    else
      var last := ratings[|ratings| - 1];
      ScoreSum(ratings[..|ratings| - 1], farmerId, a) + (if last.farmerId == farmerId then Score(last, a) else 0)
  }

  lemma TotalSnoc(ratings: seq<Rating>, x: Rating, a: Aspect)
    ensures Total(ratings + [x], a) == Total(ratings, a) + Score(x, a)
  {
    assert (ratings + [x])[..|ratings|] == ratings;
  }

  /** Summing the farmer's filtered rows is summing the farmer's scores over the table. */
  lemma RatingsForSnoc(ratings: seq<Rating>, x: Rating, farmerId: int)
    ensures RatingsFor(ratings + [x], farmerId)
            == if x.farmerId == farmerId then RatingsFor(ratings, farmerId) + [x] else RatingsFor(ratings, farmerId)
  {
    WhereSnoc(ratings, x, OfFarmer(farmerId));
  }

  lemma ScoreSumSnoc(ratings: seq<Rating>, x: Rating, farmerId: int, a: Aspect)
    ensures ScoreSum(ratings + [x], farmerId, a)
            == ScoreSum(ratings, farmerId, a) + (if x.farmerId == farmerId then Score(x, a) else 0)
  {
    assert (ratings + [x])[..|ratings|] == ratings;
  }

  /** Summing the farmer's filtered rows is summing the farmer's scores over the table. */
  lemma {:induction false} TotalOfRatingsFor(ratings: seq<Rating>, farmerId: int, a: Aspect)
    ensures Total(RatingsFor(ratings, farmerId), a) == ScoreSum(ratings, farmerId, a)
  {
    if ratings != [] {
      var init, last := ratings[..|ratings| - 1], ratings[|ratings| - 1];
      assert ratings == init + [last];
      TotalOfRatingsFor(init, farmerId, a);
      RatingsForSnoc(init, last, farmerId);
      ScoreSumSnoc(init, last, farmerId, a);
      TotalSnoc(RatingsFor(init, farmerId), last, a);
    }
  }

  /** An SQL AVG over n rows whose scores sum to sum: NULL iff there are no
      rows, otherwise the sum divided by n. */
  predicate IsAverage(avg: Option<real>, n: nat, sum: int) {
    && (avg.None? <==> n == 0)
    && (avg.Some? ==> n > 0 && avg.value == sum as real / n as real)
  }

  /** What the rating summary of a farmer reports: the number of that
      farmer's ratings and, per aspect, the average of that farmer's scores. */
  predicate SummaryOf(ratings: seq<Rating>, farmerId: int, s: RatingSummary) {
    && s.totalRatings == |RowsWhere(ratings, OfFarmer(farmerId))|
    && IsAverage(s.avgTransport, s.totalRatings, ScoreSum(ratings, farmerId, Transport))
    && IsAverage(s.avgConditions, s.totalRatings, ScoreSum(ratings, farmerId, Conditions))
    && IsAverage(s.avgEquipment, s.totalRatings, ScoreSum(ratings, farmerId, Equipment))
    && IsAverage(s.avgWages, s.totalRatings, ScoreSum(ratings, farmerId, Wages))
  }

  /** The average of one aspect over the farmer's rows is the farmer's
      score sum divided by the farmer's rating count. */
  lemma AverageOfFarmer(ratings: seq<Rating>, farmerId: int, a: Aspect)
    ensures IsAverage(Average(RatingsFor(ratings, farmerId), a),
                      |RowsWhere(ratings, OfFarmer(farmerId))|, ScoreSum(ratings, farmerId, a))
  {
    WhereCountsRows(ratings, OfFarmer(farmerId));
    TotalOfRatingsFor(ratings, farmerId, a);
  }

  /** GET /ratings/farmer/{farmer_id}: the four averages and the count over
      that farmer's ratings; with no ratings every average is NULL, never 0. */
  function FarmerSummary(ratings: seq<Rating>, farmerId: int): (s: RatingSummary)
    ensures SummaryOf(ratings, farmerId, s)
  {
    var mine := RatingsFor(ratings, farmerId);
    WhereCountsRows(ratings, OfFarmer(farmerId));
    AverageOfFarmer(ratings, farmerId, Transport);
    AverageOfFarmer(ratings, farmerId, Conditions);
    AverageOfFarmer(ratings, farmerId, Equipment);
    AverageOfFarmer(ratings, farmerId, Wages);
    RatingSummary(Average(mine, Transport), Average(mine, Conditions),
                  Average(mine, Equipment), Average(mine, Wages), |mine|)
  }

  lemma {:induction false} TotalBounds(ratings: seq<Rating>, a: Aspect, lo: int, hi: int)
    requires forall i :: 0 <= i < |ratings| ==> lo <= Score(ratings[i], a) <= hi
    ensures lo * |ratings| <= Total(ratings, a) <= hi * |ratings|
  {
    if ratings != [] {
      var n := |ratings| - 1;
      TotalBounds(ratings[..n], a, lo, hi);
      assert lo * |ratings| == lo * n + lo;
      assert hi * |ratings| == hi * n + hi;
    }
  }

  lemma ProductAsReal(x: int, n: nat)
    ensures (x * n) as real == (x as real) * (n as real)
  {
  }

  lemma QuotientBounds(t: real, n: real, lo: real, hi: real)
    requires n > 0.0 && lo * n <= t <= hi * n
    ensures lo <= t / n <= hi
  {
  }

  /** Integer bounds on a sum of n terms bound its real quotient by n. */
  lemma ScaledBounds(t: int, n: nat, lo: int, hi: int)
    requires n > 0 && lo * n <= t <= hi * n
    ensures lo as real <= t as real / n as real <= hi as real
  {
    ProductAsReal(lo, n);
    ProductAsReal(hi, n);
    QuotientBounds(t as real, n as real, lo as real, hi as real);
  }

  /** An average lies between the smallest and largest score averaged. */
  lemma AverageBounds(ratings: seq<Rating>, a: Aspect, lo: int, hi: int)
    requires forall i :: 0 <= i < |ratings| ==> lo <= Score(ratings[i], a) <= hi
    requires ratings != []
    ensures lo as real <= Average(ratings, a).value <= hi as real
  {
    TotalBounds(ratings, a, lo, hi);
    ScaledBounds(Total(ratings, a), |ratings|, lo, hi);
  }

  lemma WhereSkipsMiddle<T(!new)>(x: T, y: T, z: T, p: T -> bool)
    requires p(x) && !p(y) && p(z)
    ensures Where([x, y, z], p) == [x, z]
  {
    WhereSnoc([], x, p);
    assert [] + [x] == [x] && [x] + [y] == [x, y] && [x, y] + [z] == [x, y, z];
    WhereSnoc([x], y, p);
    WhereSnoc([x, y], z, p);
  }

  lemma ExampleRows(a: Rating, b: Rating, other: Rating)
    requires a.farmerId == 3 && b.farmerId == 3 && other.farmerId != 3
    ensures RatingsFor([a, other, b], 3) == [a, b]
  {
    WhereSkipsMiddle(a, other, b, OfFarmer(3));
  }

  /** Two transport scores 5 and 3 for one farmer average to 4.0; another
      farmer's rating does not enter the average. */
  lemma TransportAverageExample(a: Rating, b: Rating, other: Rating)
    requires a.farmerId == 3 && b.farmerId == 3 && other.farmerId != 3
    requires a.transport == 5 && b.transport == 3
    ensures FarmerSummary([a, other, b], 3).avgTransport == Some(4.0)
    ensures FarmerSummary([a, other, b], 3).totalRatings == 2
  {
    ExampleRows(a, b, other);
    assert [a, b] == [a] + [b] && [a] == [] + [a];
    TotalSnoc([], a, Transport);
    TotalSnoc([a], b, Transport);
  }

  // ---------------------------------------------------------------------
  // Analytics

  datatype CategoryCount = CategoryCount(category: string, count: nat)

  datatype Stats = Stats(
    activeCertificates: nat,
    totalWorkers: nat,
    pendingComplaints: nat,
    complaintsByCategory: seq<CategoryCount>)

  predicate Distinct(ks: seq<string>) {
    forall i, j :: 0 <= i < j < |ks| ==> ks[i] != ks[j]
  }

  /** The distinct categories, in order of first appearance. */
  function Categories(complaints: seq<Complaint>): (ks: seq<string>)
    ensures Distinct(ks)
    ensures forall k :: k in ks <==> exists c :: c in complaints && c.category == k
  {
    if complaints == [] then []
    else
      var init := complaints[..|complaints| - 1];
      var last := complaints[|complaints| - 1];
      assert complaints == init + [last];
      var ks := Categories(init);
      if last.category in ks then ks else ks + [last.category]
  }

  function CountsFor(complaints: seq<Complaint>, ks: seq<string>): (g: seq<CategoryCount>)
    ensures |g| == |ks|
    ensures forall i :: 0 <= i < |ks| ==> g[i] == CategoryCount(ks[i], |InCategory(complaints, ks[i])|)
  {
    if ks == [] then []
    else CountsFor(complaints, ks[..|ks| - 1]) + [CategoryCount(ks[|ks| - 1], |InCategory(complaints, ks[|ks| - 1])|)]
  }

  /** SELECT category, COUNT(*) FROM complaints GROUP BY category: one group
      per distinct category, counting that category's complaints. */
  function GroupByCategory(complaints: seq<Complaint>): (g: seq<CategoryCount>)
    ensures forall i, j :: 0 <= i < j < |g| ==> g[i].category != g[j].category
    ensures forall c :: c in complaints ==> exists i :: 0 <= i < |g| && g[i].category == c.category
    ensures forall i :: 0 <= i < |g| ==>
              g[i].count == |InCategory(complaints, g[i].category)| && g[i].count > 0
  {
    var ks := Categories(complaints);
    var g := CountsFor(complaints, ks);
    forall i | 0 <= i < |g| ensures g[i].count > 0 {
      assert ks[i] in ks;
      var c :| c in complaints && c.category == ks[i];
      assert c in InCategory(complaints, ks[i]);
    }
    forall c | c in complaints ensures exists i :: 0 <= i < |g| && g[i].category == c.category {
      assert c.category in ks;
      var i :| 0 <= i < |ks| && ks[i] == c.category;
      assert g[i].category == c.category;
    }
    g
  }

  function SumCounts(g: seq<CategoryCount>): nat {
    if g == [] then 0 else SumCounts(g[..|g| - 1]) + g[|g| - 1].count
  }

  lemma SumCountsSnoc(g: seq<CategoryCount>, e: CategoryCount)
    ensures SumCounts(g + [e]) == SumCounts(g) + e.count
  {
    assert (g + [e])[..|g|] == g;
  }

  lemma CountsForSnoc(complaints: seq<Complaint>, ks: seq<string>, k: string)
    ensures CountsFor(complaints, ks + [k])
            == CountsFor(complaints, ks) + [CategoryCount(k, |InCategory(complaints, k)|)]
  {
    assert (ks + [k])[..|ks|] == ks;
  }

  /** One more complaint adds one to the tally of exactly the group of its category. */
  lemma {:induction false} TallySnoc(complaints: seq<Complaint>, x: Complaint, ks: seq<string>)
    requires Distinct(ks)
    ensures SumCounts(CountsFor(complaints + [x], ks))
            == SumCounts(CountsFor(complaints, ks)) + (if x.category in ks then 1 else 0)
  {
    if ks != [] {
      var n := |ks| - 1;
      var init, k := ks[..n], ks[n];
      assert ks == init + [k];
      TallySnoc(complaints, x, init);
      CountsForSnoc(complaints + [x], init, k);
      CountsForSnoc(complaints, init, k);
      SumCountsSnoc(CountsFor(complaints + [x], init), CategoryCount(k, |InCategory(complaints + [x], k)|));
      SumCountsSnoc(CountsFor(complaints, init), CategoryCount(k, |InCategory(complaints, k)|));
      WhereSnoc(complaints, x, (c: Complaint) => c.category == k);
      assert x.category in ks <==> x.category in init || x.category == k;
      assert x.category == k ==> x.category !in init;
    }
  }

  lemma AbsentCategoryIsEmpty(complaints: seq<Complaint>, k: string)
    requires k !in Categories(complaints)
    ensures InCategory(complaints, k) == []
  {
  }

  /** The per-category counts add up to the number of complaints. */
  lemma {:induction false} GroupByCategoryTotal(complaints: seq<Complaint>)
    ensures SumCounts(GroupByCategory(complaints)) == |complaints|
  {
    if complaints != [] {
      var n := |complaints| - 1;
      var init, last := complaints[..n], complaints[n];
      assert complaints == init + [last];
      GroupByCategoryTotal(init);
      var ks := Categories(init);
      TallySnoc(init, last, ks);
      if last.category !in ks {
        var k := last.category;
        assert Categories(complaints) == ks + [k];
        CountsForSnoc(complaints, ks, k);
        SumCountsSnoc(CountsFor(complaints, ks), CategoryCount(k, |InCategory(complaints, k)|));
        AbsentCategoryIsEmpty(init, k);
      }
    }
  }

  predicate IsWorker(u: User) {
    u.role == WORKER
  }

  /** GET /analytics/stats. */
  function Statistics(users: seq<User>, certificates: seq<Certificate>, complaints: seq<Complaint>): (st: Stats)
    ensures st.activeCertificates == |RowsWhere(certificates, IsActive)|
    ensures st.totalWorkers == |RowsWhere(users, IsWorker)|
    ensures st.pendingComplaints == |RowsWhere(complaints, IsPending)|
    ensures forall i, j :: 0 <= i < j < |st.complaintsByCategory| ==>
              st.complaintsByCategory[i].category != st.complaintsByCategory[j].category
    ensures forall c :: c in complaints ==>
              exists i :: 0 <= i < |st.complaintsByCategory| && st.complaintsByCategory[i].category == c.category
    ensures forall i :: 0 <= i < |st.complaintsByCategory| ==>
              && st.complaintsByCategory[i].count == |InCategory(complaints, st.complaintsByCategory[i].category)|
              && st.complaintsByCategory[i].count > 0
    ensures SumCounts(st.complaintsByCategory) == |complaints|
  {
    GroupByCategoryTotal(complaints);
    WhereCountsRows(certificates, IsActive);
    WhereCountsRows(users, IsWorker);
    WhereCountsRows(complaints, IsPending);
    Stats(|ActiveCertificates(certificates)|,
          |Where(users, IsWorker)|,
          |Where(complaints, IsPending)|,
          GroupByCategory(complaints))
  }
}
