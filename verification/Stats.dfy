/** The statistics hash: incremental counters, the full recount, and the law that ties them (cache.go). */
module Stats {
  import opened Requests

  /** The per-admin figures of the aggregate job; see module Aggregates. */
  datatype Performance = Performance(totalHandled: nat, average: real, total: real)
  datatype AggregateStats = AggregateStats(overtime: nat, performance: map<string, Performance>)

  /** The real-time counters, the average apart. */
  datatype Tally = Tally(
    pending: int, denied: int, approved: int, banned: int, deactivated: int, totalTime: real,
    male: int, female: int, otherGender: int, age1: int, age2: int, age3: int, age4: int)
  {
    function Plus(t: Tally): Tally {
      Tally(pending + t.pending, denied + t.denied, approved + t.approved, banned + t.banned,
            deactivated + t.deactivated, totalTime + t.totalTime,
            male + t.male, female + t.female, otherGender + t.otherGender,
            age1 + t.age1, age2 + t.age2, age3 + t.age3, age4 + t.age4)
    }

    function Minus(t: Tally): Tally {
      Tally(pending - t.pending, denied - t.denied, approved - t.approved, banned - t.banned,
            deactivated - t.deactivated, totalTime - t.totalTime,
            male - t.male, female - t.female, otherGender - t.otherGender,
            age1 - t.age1, age2 - t.age2, age3 - t.age3, age4 - t.age4)
    }

    function Fulfilled(): int {
      approved + denied + banned + deactivated
    }

    predicate Demographic() {
      && male + female + otherGender == approved
      && age1 + age2 + age3 + age4 == approved
    }
  }

  const ZERO := Tally(0, 0, 0, 0, 0, 0.0, 0, 0, 0, 0, 0, 0, 0)

  function Sum<T>(xs: seq<T>, f: T -> Tally): Tally {
    if xs == [] then ZERO else Sum(xs[..|xs| - 1], f).Plus(f(xs[|xs| - 1]))
  }

  lemma {:induction false} SumAppend<T>(xs: seq<T>, x: T, f: T -> Tally)
    ensures Sum(xs + [x], f) == Sum(xs, f).Plus(f(x))
  {
    assert (xs + [x])[..|xs|] == xs;
  }

  lemma {:induction false} SumUpdate<T>(xs: seq<T>, i: nat, x: T, f: T -> Tally)
    requires i < |xs|
    ensures Sum(xs[i := x], f) == Sum(xs, f).Plus(f(x).Minus(f(xs[i])))
  {
    var n := |xs| - 1;
    if i == n {
      assert xs[i := x][..n] == xs[..n];
    } else {
      SumUpdate(xs[..n], i, x, f);
      assert xs[i := x][..n] == xs[..n][i := x];
    }
  }

  lemma {:induction false} SumEqual<S, T>(xs: seq<S>, f: S -> Tally, ys: seq<T>, g: T -> Tally)
    requires |xs| == |ys| && forall i :: 0 <= i < |xs| ==> f(xs[i]) == g(ys[i])
    ensures Sum(xs, f) == Sum(ys, g)
  {
    if xs != [] {
      SumEqual(xs[..|xs| - 1], f, ys[..|ys| - 1], g);
    }
  }

  function Times(n: nat, t: Tally): Tally {
    if n == 0 then ZERO else Times(n - 1, t).Plus(t)
  }

  // ----- the recount -----

  const AGE_GROUP_STEP := 15

  function AgeGroup(age: int): (group: int)
    ensures 1 <= group <= 4
    ensures group == 1 <==> 0 <= age < 15
    ensures group == 2 <==> 15 <= age < 30
    ensures group == 3 <==> 30 <= age < 45
  {
    if 0 <= age < AGE_GROUP_STEP then 1
    else if AGE_GROUP_STEP <= age < AGE_GROUP_STEP * 2 then 2
    else if AGE_GROUP_STEP * 2 <= age < AGE_GROUP_STEP * 3 then 3
    else 4
  }

  /** One person of r's gender and age group, counted delta times. */
  function Demographics(r: Request, delta: int): Tally {
    var group := AgeGroup(r.age);
    Tally(0, 0, 0, 0, 0, 0.0,
          if r.gender == "male" then delta else 0,
          if r.gender == "female" then delta else 0,
          if r.gender != "male" && r.gender != "female" then delta else 0,
          if group == 1 then delta else 0, if group == 2 then delta else 0,
          if group == 3 then delta else 0, if group == 4 then delta else 0)
  }

  /** What one row adds to a recount. */
  function Contribution(r: Request): Tally {
    match r.status
    case Pending => ZERO.(pending := 1)
    case Approved => Demographics(r, 1).(approved := 1, totalTime := ResponseTime(r))
    case Denied => ZERO.(denied := 1, totalTime := ResponseTime(r))
    case Banned => ZERO.(banned := 1, totalTime := ResponseTime(r))
    case Deactivated => ZERO.(deactivated := 1, totalTime := ResponseTime(r))
  }

  function Recount(rows: seq<Request>): Tally {
    Sum(rows, Contribution)
  }

  lemma {:induction false} RecountBounds(rows: seq<Request>)
    requires forall r :: r in rows && r.status != Pending ==> ResponseTime(r) >= 0.0
    ensures var t := Recount(rows);
            && t.approved >= 0 && t.denied >= 0 && t.banned >= 0 && t.deactivated >= 0 && t.totalTime >= 0.0
            && (t.totalTime != 0.0 ==> t.Fulfilled() > 0)
            && t.Demographic()
  {
    if rows != [] {
      RecountBounds(rows[..|rows| - 1]);
      assert Contribution(rows[|rows| - 1]).Demographic();
    }
  }

  // ----- what a recount is -----

  lemma {:induction false} CounterCounts(rows: seq<Request>, counter: Tally -> int, p: Request -> bool,
                                         counted: set<int>)
    requires counter(ZERO) == 0 && forall a: Tally, b :: counter(a.Plus(b)) == counter(a) + counter(b)
    requires forall r :: counter(Contribution(r)) == if p(r) then 1 else 0
    requires forall i :: i in counted <==> 0 <= i < |rows| && p(rows[i])
    ensures counter(Recount(rows)) == |counted|
  {
    if rows == [] {
      assert forall i :: i !in counted;
      assert counted == {};
    } else {
      var n := |rows| - 1;
      CounterCounts(rows[..n], counter, p, counted - {n});
    }
  }

  /** The status counters of a recount: how many rows have the status. */
  lemma PendingCounted(rows: seq<Request>, counted: set<int>)
    requires forall i :: i in counted <==> 0 <= i < |rows| && rows[i].status == Pending
    ensures Recount(rows).pending == |counted|
  {
    CounterCounts(rows, (t: Tally) => t.pending, (r: Request) => r.status == Pending, counted);
  }

  lemma ApprovedCounted(rows: seq<Request>, counted: set<int>)
    requires forall i :: i in counted <==> 0 <= i < |rows| && rows[i].status == Approved
    ensures Recount(rows).approved == |counted|
  {
    CounterCounts(rows, (t: Tally) => t.approved, (r: Request) => r.status == Approved, counted);
  }

  lemma DeniedCounted(rows: seq<Request>, counted: set<int>)
    requires forall i :: i in counted <==> 0 <= i < |rows| && rows[i].status == Denied
    ensures Recount(rows).denied == |counted|
  {
    CounterCounts(rows, (t: Tally) => t.denied, (r: Request) => r.status == Denied, counted);
  }

  lemma BannedCounted(rows: seq<Request>, counted: set<int>)
    requires forall i :: i in counted <==> 0 <= i < |rows| && rows[i].status == Banned
    ensures Recount(rows).banned == |counted|
  {
    CounterCounts(rows, (t: Tally) => t.banned, (r: Request) => r.status == Banned, counted);
  }

  lemma DeactivatedAreCounted(rows: seq<Request>, counted: set<int>)
    requires forall i :: i in counted <==> 0 <= i < |rows| && rows[i].status == Deactivated
    ensures Recount(rows).deactivated == |counted|
  {
    CounterCounts(rows, (t: Tally) => t.deactivated, (r: Request) => r.status == Deactivated, counted);
  }

  /** The gender counters: how many approved rows have the gender. */
  lemma MalesCounted(rows: seq<Request>, counted: set<int>)
    requires forall i :: i in counted <==> 0 <= i < |rows| && rows[i].status == Approved && rows[i].gender == "male"
    ensures Recount(rows).male == |counted|
  {
    CounterCounts(rows, (t: Tally) => t.male, (r: Request) => r.status == Approved && r.gender == "male", counted);
  }

  lemma FemalesCounted(rows: seq<Request>, counted: set<int>)
    requires forall i :: i in counted <==> 0 <= i < |rows| && rows[i].status == Approved && rows[i].gender == "female"
    ensures Recount(rows).female == |counted|
  {
    CounterCounts(rows, (t: Tally) => t.female, (r: Request) => r.status == Approved && r.gender == "female", counted);
  }

  lemma OtherGendersCounted(rows: seq<Request>, counted: set<int>)
    requires forall i :: i in counted <==>
               0 <= i < |rows| && rows[i].status == Approved && rows[i].gender != "male" && rows[i].gender != "female"
    ensures Recount(rows).otherGender == |counted|
  {
    CounterCounts(rows, (t: Tally) => t.otherGender,
                  (r: Request) => r.status == Approved && r.gender != "male" && r.gender != "female", counted);
  }

  /** The age groups: how many approved rows are of that age. */
  lemma AgeGroup1Counted(rows: seq<Request>, counted: set<int>)
    requires forall i :: i in counted <==> 0 <= i < |rows| && rows[i].status == Approved && 0 <= rows[i].age < 15
    ensures Recount(rows).age1 == |counted|
  {
    CounterCounts(rows, (t: Tally) => t.age1, (r: Request) => r.status == Approved && 0 <= r.age < 15, counted);
  }

  lemma AgeGroup2Counted(rows: seq<Request>, counted: set<int>)
    requires forall i :: i in counted <==> 0 <= i < |rows| && rows[i].status == Approved && 15 <= rows[i].age < 30
    ensures Recount(rows).age2 == |counted|
  {
    CounterCounts(rows, (t: Tally) => t.age2, (r: Request) => r.status == Approved && 15 <= r.age < 30, counted);
  }

  lemma AgeGroup3Counted(rows: seq<Request>, counted: set<int>)
    requires forall i :: i in counted <==> 0 <= i < |rows| && rows[i].status == Approved && 30 <= rows[i].age < 45
    ensures Recount(rows).age3 == |counted|
  {
    CounterCounts(rows, (t: Tally) => t.age3, (r: Request) => r.status == Approved && 30 <= r.age < 45, counted);
  }

  lemma AgeGroup4Counted(rows: seq<Request>, counted: set<int>)
    requires forall i :: i in counted <==> 0 <= i < |rows| && rows[i].status == Approved && !(0 <= rows[i].age < 45)
    ensures Recount(rows).age4 == |counted|
  {
    CounterCounts(rows, (t: Tally) => t.age4, (r: Request) => r.status == Approved && !(0 <= r.age < 45), counted);
  }

  function Minutes(rows: seq<Request>): real {
    if rows == [] then 0.0
    else
      var r := rows[|rows| - 1];
      Minutes(rows[..|rows| - 1]) + (if r.status != Pending then r.processed - r.timestamp else 0.0)
  }

  /** The total response time of a recount: every row that is not pending any more. */
  lemma {:induction false} RecountTime(rows: seq<Request>)
    ensures Recount(rows).totalTime == Minutes(rows)
  {
    if rows != [] {
      RecountTime(rows[..|rows| - 1]);
    }
  }

  // ----- the hash -----

  /** A quotient that Go computes in floating point: a zero divisor yields an infinity, not an error. */
  datatype Average = Finite(minutes: real) | Infinite

  function Quotient(total: real, n: int): Average {
    if n == 0 then Infinite else Finite(total / n as real)
  }

  /** The Redis hash, one component per field name; an absent counter is scanned as zero. The sync writes a
      field called "Deactivated" (capitalDeactivated) while every reader scans "deactivated"
      (counters.deactivated): two different names, so two different components. Module Fields relates this record to
      the flat map that Redis stores. */
  datatype Hash = Hash(counters: Tally, capitalDeactivated: int, average: Average, aggregate: Option<AggregateStats>)

  const EMPTY_HASH := Hash(ZERO, 0, Finite(0.0), None)

  /** The field-value pairs of one HMSET; a field that is None is not mentioned by the command. */
  datatype Args = Args(
    pending: Option<int>, denied: Option<int>, approved: Option<int>, banned: Option<int>,
    deactivated: Option<int>, capitalDeactivated: Option<int>, average: Option<Average>, totalTime: Option<real>,
    male: Option<int>, female: Option<int>, otherGender: Option<int>,
    age1: Option<int>, age2: Option<int>, age3: Option<int>, age4: Option<int>)

  const NO_ARGS :=
    Args(None, None, None, None, None, None, None, None, None, None, None, None, None, None, None)

  function Or<T>(o: Option<T>, stored: T): T {
    if o.Some? then o.value else stored
  }

  function Hmset(h: Hash, a: Args): Hash {
    var c := h.counters;
    Hash(
      Tally(Or(a.pending, c.pending), Or(a.denied, c.denied), Or(a.approved, c.approved), Or(a.banned, c.banned),
            Or(a.deactivated, c.deactivated), Or(a.totalTime, c.totalTime),
            Or(a.male, c.male), Or(a.female, c.female), Or(a.otherGender, c.otherGender),
            Or(a.age1, c.age1), Or(a.age2, c.age2), Or(a.age3, c.age3), Or(a.age4, c.age4)),
      Or(a.capitalDeactivated, h.capitalDeactivated), Or(a.average, h.average), h.aggregate)
  }

  /** getStats succeeds only when the nested aggregate statistics are there to be decoded. */
  predicate Readable(h: Hash) {
    h.aggregate.Some?
  }

  // ----- the incremental update -----

  /** The gender and age-group pairs: every one of the seven fields is rewritten, one of each kind moved. */
  function AgeGenderArgs(r: Request, s: Tally, delta: int, a: Args): Args {
    var male := if r.gender == "male" then s.male + delta else s.male;
    var female := if r.gender == "female" then s.female + delta else s.female;
    var other := if r.gender != "male" && r.gender != "female" then s.otherGender + delta else s.otherGender;
    var group := AgeGroup(r.age);
    a.(male := Some(male), female := Some(female), otherGender := Some(other),
       age1 := Some(if group == 1 then s.age1 + delta else s.age1),
       age2 := Some(if group == 2 then s.age2 + delta else s.age2),
       age3 := Some(if group == 3 then s.age3 + delta else s.age3),
       age4 := Some(if group == 4 then s.age4 + delta else s.age4))
  }

  /** The pairs of the HMSET, computed from the counters as last read. */
  function UpdateArgs(r: Request, s: Tally): Args {
    var total := if Decision(r.status) then s.totalTime + ResponseTime(r) else s.totalTime;
    var (args, fulfilled) := match r.status
      case Approved =>
        (AgeGenderArgs(r, s, 1, NO_ARGS)
           .(pending := Some(s.pending - 1), approved := Some(s.approved + 1), totalTime := Some(total)),
         (s.approved + 1) + s.denied + s.banned + s.deactivated)
      case Denied =>
        (NO_ARGS.(pending := Some(s.pending - 1), denied := Some(s.denied + 1), totalTime := Some(total)),
         s.approved + (s.denied + 1) + s.banned + s.deactivated)
      case Pending =>
        (NO_ARGS.(pending := Some(s.pending + 1)), s.approved + s.denied + s.banned + s.deactivated)
      case Banned =>
        (AgeGenderArgs(r, s, -1, NO_ARGS.(approved := Some(s.approved - 1), banned := Some(s.banned + 1))),
         (s.approved - 1) + s.denied + (s.banned + 1) + s.deactivated)
      case Deactivated =>
        (AgeGenderArgs(r, s, -1, NO_ARGS.(approved := Some(s.approved - 1), deactivated := Some(s.deactivated + 1))),
         (s.approved - 1) + s.denied + s.banned + (s.deactivated + 1));
    if total != 0.0 then args.(average := Some(Quotient(total, fulfilled))) else args
  }

  function UpdateRealTime(h: Hash, r: Request): Hash {
    Hmset(h, UpdateArgs(r, h.counters))
  }

  /** What processing one message is meant to add to the counters. */
  function Delta(r: Request): Tally {
    match r.status
    case Pending => ZERO.(pending := 1)
    case Approved => Demographics(r, 1).(pending := -1, approved := 1, totalTime := ResponseTime(r))
    case Denied => ZERO.(pending := -1, denied := 1, totalTime := ResponseTime(r))
    case Banned => Demographics(r, -1).(approved := -1, banned := 1)
    case Deactivated => Demographics(r, -1).(approved := -1, deactivated := 1)
  }

  /** The stored update adds exactly Delta to what getStats scans and leaves the aggregate field alone. */
  lemma UpdateAddsDelta(h: Hash, r: Request)
    ensures UpdateRealTime(h, r).counters == h.counters.Plus(Delta(r))
    ensures UpdateRealTime(h, r).aggregate == h.aggregate
    ensures UpdateRealTime(h, r).capitalDeactivated == h.capitalDeactivated
  {
  }

  /** The fast form refines the recount: on a legal transition the delta of the post-image is the change of
      the row's own contribution, and on creation it is the whole contribution. */
  lemma DeltaIsContributionChange(pre: Request, post: Request)
    requires LegalTransition(pre.status, post.status)
    requires post.gender == pre.gender && post.age == pre.age
    requires post.status in {Banned, Deactivated} ==> ResponseTime(post) == ResponseTime(pre)
    ensures Contribution(pre).Plus(Delta(post)) == Contribution(post)
  {
    var d, e, x := Demographics(pre, 1), Demographics(post, -1), ResponseTime(pre);
    match post.status
    case Banned =>
      DemographicsCancel(pre, post);
      Leaves(d, e, x, 1, 0);
    case Deactivated =>
      DemographicsCancel(pre, post);
      Leaves(d, e, x, 0, 1);
    case _ =>
  }

  lemma DemographicsCancel(pre: Request, post: Request)
    requires post.gender == pre.gender && post.age == pre.age
    ensures Demographics(pre, 1).Plus(Demographics(post, -1)) == ZERO
  {
    var group := AgeGroup(pre.age);
    assert AgeGroup(post.age) == group && (group == 1 || group == 2 || group == 3 || group == 4);
    if pre.gender == "male" {
      assert post.gender == "male";
    } else if pre.gender == "female" {
      assert post.gender == "female";
    } else {
      assert post.gender != "male" && post.gender != "female";
    }
  }

  predicate PersonOnly(t: Tally) {
    t.pending == t.denied == t.approved == t.banned == t.deactivated == 0 && t.totalTime == 0.0
  }

  /** An approved person leaves for another status: e takes the demographics d back, the time x stays. */
  lemma Leaves(d: Tally, e: Tally, x: real, banned: int, deactivated: int)
    requires d.Plus(e) == ZERO && PersonOnly(d) && PersonOnly(e)
    ensures d.(approved := 1, totalTime := x).Plus(e.(approved := -1, banned := banned, deactivated := deactivated))
         == ZERO.(banned := banned, deactivated := deactivated, totalTime := x)
  {
  }

  /** On a transition the interface does not offer, the two never agree. */
  lemma IllegalTransitionDrifts(pre: Request, post: Request)
    requires post.gender == pre.gender && post.age == pre.age
    requires post.status in {Banned, Deactivated} ==> ResponseTime(post) == ResponseTime(pre)
    ensures Contribution(pre).Plus(Delta(post)) == Contribution(post) <==> LegalTransition(pre.status, post.status)
  {
    if LegalTransition(pre.status, post.status) {
      DeltaIsContributionChange(pre, post);
    } else if post.status == Pending {
      OneStatus(pre);
      if Contribution(pre).Plus(Delta(post)) == Contribution(post) {
        AddsNothing(Contribution(pre), Delta(post));
      }
    }
  }

  lemma OneStatus(r: Request)
    ensures var t := Contribution(r); t.pending + t.approved + t.denied + t.banned + t.deactivated == 1
  {
  }

  lemma AddsNothing(t: Tally, d: Tally)
    requires t.Plus(d) == d
    ensures t == ZERO
  {
  }

  // ----- the sync at start -----

  function SyncArgs(t: Tally): Args {
    Args(Some(t.pending), Some(t.denied), Some(t.approved), Some(t.banned), None, Some(t.deactivated),
         Some(if t.totalTime != 0.0 then Quotient(t.totalTime, t.Fulfilled()) else Finite(0.0)), Some(t.totalTime),
         Some(t.male), Some(t.female), Some(t.otherGender),
         Some(t.age1), Some(t.age2), Some(t.age3), Some(t.age4))
  }

  function SyncRealTime(h: Hash, rows: seq<Request>): Hash {
    Hmset(h, SyncArgs(Recount(rows)))
  }

  /** Every scanned field equals the recount, except that "deactivated" keeps its earlier value. */
  lemma SyncScansRecount(h: Hash, rows: seq<Request>)
    ensures SyncRealTime(h, rows).counters == Recount(rows).(deactivated := h.counters.deactivated)
    ensures SyncRealTime(h, rows).aggregate == h.aggregate
  {
  }

  // ----- demographics and the average -----

  /** male + female + other == approved, and likewise the age groups, whatever statuses arrive. */
  lemma DemographicsConserved(h: Hash, r: Request)
    requires h.counters.Demographic()
    ensures UpdateRealTime(h, r).counters.Demographic()
  {
    UpdateAddsDelta(h, r);
    DeltaDemographic(r);
    DemographicPlus(h.counters, Delta(r));
  }

  lemma DeltaDemographic(r: Request)
    ensures Delta(r).Demographic()
  {
  }

  lemma DemographicPlus(a: Tally, b: Tally)
    requires a.Demographic() && b.Demographic()
    ensures a.Plus(b).Demographic()
  {
  }

  ghost predicate AverageAgrees(h: Hash) {
    var s := h.counters;
    && h.average.Finite?
    && s.totalTime >= 0.0 && s.Fulfilled() >= 0
    && (s.totalTime == 0.0 ==> h.average.minutes == 0.0)
    && (s.totalTime != 0.0 ==> s.Fulfilled() > 0 && h.average.minutes * s.Fulfilled() as real == s.totalTime)
  }

  lemma QuotientTimes(total: real, n: int)
    requires n > 0
    ensures Quotient(total, n).minutes * n as real == total
  {
  }

  lemma ProductLawIff(total: real, n: int, m: int)
    requires total > 0.0 && n > 0 && m >= 0
    ensures m > 0 && Quotient(total, n).minutes * m as real == total <==> m == n
  {
    QuotientTimes(total, n);
    var q := Quotient(total, n).minutes;
    if q * m as real == total {
      assert q * (m as real - n as real) == 0.0;
    }
  }

  /** No update divides by zero, and the product law survives every status, legal or not. */
  lemma AveragePreserved(h: Hash, r: Request)
    requires AverageAgrees(h)
    requires Decision(r.status) ==> ResponseTime(r) >= 0.0
    ensures AverageAgrees(UpdateRealTime(h, r))
  {
    UpdateAddsDelta(h, r);
    var h' := UpdateRealTime(h, r);
    var s' := h'.counters;
    assert s'.Fulfilled() == h.counters.Fulfilled() + if Decision(r.status) then 1 else 0;
    if s'.totalTime != 0.0 {
      assert h'.average == Quotient(s'.totalTime, s'.Fulfilled());
      QuotientTimes(s'.totalTime, s'.Fulfilled());
    }
  }

  /** Exactly when the sync establishes the product law: nothing was fulfilled in measurable time, or the
      stale "deactivated" field happens to be right. */
  lemma AverageAfterSync(h: Hash, rows: seq<Request>)
    requires forall r :: r in rows && r.status != Pending ==> ResponseTime(r) >= 0.0
    requires h.counters.deactivated >= 0
    ensures AverageAgrees(SyncRealTime(h, rows))
       <==> Recount(rows).totalTime == 0.0 || h.counters.deactivated == Recount(rows).deactivated
  {
    RecountBounds(rows);
    SyncScansRecount(h, rows);
    AverageOfTally(SyncRealTime(h, rows), Recount(rows), h.counters.deactivated);
  }

  lemma AverageOfTally(h: Hash, t: Tally, read: int)
    requires h.counters == t.(deactivated := read) && read >= 0
    requires t.approved >= 0 && t.denied >= 0 && t.banned >= 0 && t.deactivated >= 0 && t.totalTime >= 0.0
    requires t.totalTime != 0.0 ==> t.Fulfilled() > 0
    requires h.average == if t.totalTime != 0.0 then Quotient(t.totalTime, t.Fulfilled()) else Finite(0.0)
    ensures AverageAgrees(h) <==> t.totalTime == 0.0 || read == t.deactivated
  {
    if t.totalTime != 0.0 {
      AverageAgreesIff(h, t.Fulfilled());
    }
  }

  lemma AverageAgreesIff(h: Hash, n: int)
    requires h.counters.totalTime > 0.0 && h.counters.Fulfilled() >= 0
    requires n > 0 && h.average == Quotient(h.counters.totalTime, n)
    ensures AverageAgrees(h) <==> h.counters.Fulfilled() == n
  {
    ProductLawIff(h.counters.totalTime, n, h.counters.Fulfilled());
  }

  /** When it does not: a first sync over deactivated rows only, then any message that adds no time,
      divides by zero and stores an infinity. */
  lemma StaleDeactivatedDividesByZero(rows: seq<Request>, r: Request)
    requires forall x :: x in rows ==> x.status == Deactivated && ResponseTime(x) > 0.0
    requires rows != [] && r.status == Pending
    ensures UpdateRealTime(SyncRealTime(EMPTY_HASH, rows), r).average == Infinite
  {
    OnlyDeactivated(rows);
    SyncScansRecount(EMPTY_HASH, rows);
  }

  lemma {:induction false} OnlyDeactivated(rows: seq<Request>)
    requires forall x :: x in rows ==> x.status == Deactivated && ResponseTime(x) > 0.0
    ensures var t := Recount(rows);
            t.approved == t.denied == t.banned == 0 && (if rows == [] then t.totalTime == 0.0 else t.totalTime > 0.0)
  {
    if rows != [] {
      OnlyDeactivated(rows[..|rows| - 1]);
    }
  }
}
