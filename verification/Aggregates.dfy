/** The periodic aggregation: overtime count and per-admin performance (cache.go, UpdateAggregateStats). */
module Aggregates {
  import opened Requests
  import opened Stats

  const OVERTIME_MINUTES := 1440.0

  function OvertimeCount(pending: seq<Request>, now: real): nat {
    if pending == [] then 0
    else OvertimeCount(pending[..|pending| - 1], now)
         + (if now - pending[|pending| - 1].timestamp >= OVERTIME_MINUTES then 1 else 0)
  }

  /** The group-by specification: how many of the requests one admin handled, and how long they took. */
  function HandledBy(rs: seq<Request>, admin: string): nat {
    if rs == [] then 0
    else HandledBy(rs[..|rs| - 1], admin) + (if rs[|rs| - 1].admin == admin then 1 else 0)
  }

  function TimeBy(rs: seq<Request>, admin: string): real {
    if rs == [] then 0.0
    else TimeBy(rs[..|rs| - 1], admin) + (if rs[|rs| - 1].admin == admin then ResponseTime(rs[|rs| - 1]) else 0.0)
  }

  function Admins(rs: seq<Request>): set<string> {
    set i | 0 <= i < |rs| :: rs[i].admin
  }

  function MeanTime(total: real, n: nat): real {
    if n == 0 then 0.0 else total / n as real
  }

  /** average * count == total time, for every admin. */
  lemma MeanTimesCount(total: real, n: nat)
    requires n > 0
    ensures MeanTime(total, n) * n as real == total
  {
  }

  /** The mutable record the map points to. */
  class Record {
    var totalHandled: nat
    var average: real
    var total: real

    constructor (processingTime: real)
      ensures totalHandled == 1 && total == average == processingTime
    {
      totalHandled, total, average := 1, processingTime, processingTime;
    }

    ghost predicate Holds(rs: seq<Request>, admin: string)
      reads this
    {
      && totalHandled == HandledBy(rs, admin) && totalHandled > 0
      && total == TimeBy(rs, admin) && average == MeanTime(total, totalHandled)
    }

    method Add(processingTime: real)
      requires totalHandled > 0
      modifies this
      ensures totalHandled == old(totalHandled) + 1 && total == old(total) + processingTime
      ensures average == MeanTime(total, totalHandled)
    {
      total := total + processingTime;
      average := total / (totalHandled as real + 1.0);
      totalHandled := totalHandled + 1;
    }
  }

  lemma {:induction false} HandledAppend(rs: seq<Request>, r: Request, admin: string)
    ensures HandledBy(rs + [r], admin) == HandledBy(rs, admin) + (if r.admin == admin then 1 else 0)
    ensures TimeBy(rs + [r], admin) == TimeBy(rs, admin) + (if r.admin == admin then ResponseTime(r) else 0.0)
    ensures Admins(rs + [r]) == Admins(rs) + {r.admin}
  {
    var both := rs + [r];
    assert both[..|rs|] == rs;
    assert forall i :: 0 <= i < |rs| ==> both[i] == rs[i];
    assert both[|rs|] == r;
  }

  lemma {:induction false} StrangersHandleNothing(rs: seq<Request>, admin: string)
    requires admin !in Admins(rs)
    ensures HandledBy(rs, admin) == 0 && TimeBy(rs, admin) == 0.0
  {
    if rs != [] {
      var n := |rs| - 1;
      assert rs[n].admin in Admins(rs);
      assert forall i :: 0 <= i < n ==> rs[..n][i].admin == rs[i].admin && rs[i].admin in Admins(rs);
      StrangersHandleNothing(rs[..n], admin);
    }
  }

  method CountOvertime(pending: seq<Request>, now: real) returns (overtime: nat)
    ensures overtime == OvertimeCount(pending, now)
  {
    overtime := 0;
    for i := 0 to |pending|
      invariant overtime == OvertimeCount(pending[..i], now)
    {
      assert pending[..i + 1][..i] == pending[..i];
      if now - pending[i].timestamp >= OVERTIME_MINUTES {
        overtime := overtime + 1;
      }
    }
    assert pending[..|pending|] == pending;
  }

  /** One record per admin, not shared, holding that admin's count, total time and average. */
  ghost predicate GroupedBy(performance: map<string, Record>, rs: seq<Request>)
    reads performance.Values
  {
    && performance.Keys == Admins(rs)
    && (forall a, b :: a in performance && b in performance && a != b ==> performance[a] != performance[b])
    && (forall a :: a in performance ==> performance[a].Holds(rs, a))
  }

  /** One round of the group-by loop: the admin's record is updated in place, or a new one is entered. */
  method AddRequest(performance: map<string, Record>, request: Request, ghost before: seq<Request>)
    returns (result: map<string, Record>)
    requires GroupedBy(performance, before)
    modifies performance.Values
    ensures GroupedBy(result, before + [request])
    ensures fresh(result.Values - performance.Values)
  {
    var processingTime := request.processed - request.timestamp;
    HandledAppend(before, request, request.admin);
    if request.admin in performance {
      assert performance[request.admin] in performance.Values;
      performance[request.admin].Add(processingTime);
      result := performance;
    } else {
      StrangersHandleNothing(before, request.admin);
      var p := new Record(processingTime);
      result := performance[request.admin := p];
    }
    forall a | a in result && a != request.admin
      ensures result[a].Holds(before + [request], a)
    {
      assert performance[a] in performance.Values;
      HandledAppend(before, request, a);
    }
  }

  method MeasurePerformance(fulfilled: seq<Request>) returns (performance: map<string, Record>)
    ensures GroupedBy(performance, fulfilled) && fresh(performance.Values)
  {
    performance := map[];
    for i := 0 to |fulfilled|
      invariant GroupedBy(performance, fulfilled[..i]) && fresh(performance.Values)
    {
      assert fulfilled[..i + 1] == fulfilled[..i] + [fulfilled[i]];
      performance := AddRequest(performance, fulfilled[i], fulfilled[..i]);
    }
    assert fulfilled[..|fulfilled|] == fulfilled;
  }

  /** What is stored of the records: exactly the admins of the requests, each with the count and the total time of
      the group-by, and the mean of the two. */
  ghost predicate Measures(performance: map<string, Performance>, rs: seq<Request>) {
    && performance.Keys == Admins(rs)
    && forall admin :: admin in performance ==>
         var p := performance[admin];
         && p.totalHandled == HandledBy(rs, admin) > 0
         && p.total == TimeBy(rs, admin)
         && p.average == MeanTime(p.total, p.totalHandled)
  }

  method SummarizePerformance(fulfilled: seq<Request>) returns (performance: map<string, Performance>)
    ensures Measures(performance, fulfilled)
  {
    var records := MeasurePerformance(fulfilled);
    performance := map admin | admin in records ::
      Performance(records[admin].totalHandled, records[admin].average, records[admin].total);
  }

  // ----- what the specification itself promises -----

  function Total(admins: set<string>, rs: seq<Request>): nat
    decreases |rs|
  {
    if rs == [] then 0
    else Total(admins, rs[..|rs| - 1]) + (if rs[|rs| - 1].admin in admins then 1 else 0)
  }

  lemma {:induction false} TotalSplits(admins: set<string>, admin: string, rs: seq<Request>)
    requires admin in admins
    ensures Total(admins, rs) == Total(admins - {admin}, rs) + HandledBy(rs, admin)
    decreases |rs|
  {
    if rs != [] {
      TotalSplits(admins, admin, rs[..|rs| - 1]);
    }
  }

  /** The sum, over a set of admins, of what each handled. */
  ghost function SumHandled(admins: set<string>, rs: seq<Request>): nat
    decreases admins
  {
    if admins == {} then 0
    else
      var a :| a in admins;
      HandledBy(rs, a) + SumHandled(admins - {a}, rs)
  }

  lemma {:induction false} SumHandledIsTotal(admins: set<string>, rs: seq<Request>)
    ensures SumHandled(admins, rs) == Total(admins, rs)
    decreases admins
  {
    if admins == {} {
      TotalOfNobody(rs);
    } else {
      var a :| a in admins && SumHandled(admins, rs) == HandledBy(rs, a) + SumHandled(admins - {a}, rs);
      SumHandledIsTotal(admins - {a}, rs);
      TotalSplits(admins, a, rs);
    }
  }

  lemma {:induction false} TotalOfNobody(rs: seq<Request>)
    ensures Total({}, rs) == 0
  {
    if rs != [] {
      TotalOfNobody(rs[..|rs| - 1]);
    }
  }

  lemma {:induction false} TotalOfAll(admins: set<string>, rs: seq<Request>)
    requires Admins(rs) <= admins
    ensures Total(admins, rs) == |rs|
  {
    if rs != [] {
      var n := |rs| - 1;
      assert rs[n].admin in Admins(rs);
      assert forall i :: 0 <= i < n ==> rs[..n][i].admin == rs[i].admin && rs[i].admin in Admins(rs);
      TotalOfAll(admins, rs[..n]);
    }
  }

  /** Nothing is lost or counted twice: the admins' counts add up to the number of fulfilled requests. */
  lemma CountsAddUp(rs: seq<Request>)
    ensures SumHandled(Admins(rs), rs) == |rs|
  {
    SumHandledIsTotal(Admins(rs), rs);
    TotalOfAll(Admins(rs), rs);
  }

  lemma {:induction false} HandledWithout(rs: seq<Request>, k: nat, admin: string)
    requires k < |rs|
    ensures var rest := rs[..k] + rs[k + 1..];
            && HandledBy(rs, admin) == HandledBy(rest, admin) + (if rs[k].admin == admin then 1 else 0)
            && TimeBy(rs, admin) == TimeBy(rest, admin) + (if rs[k].admin == admin then ResponseTime(rs[k]) else 0.0)
    decreases |rs|
  {
    var n := |rs| - 1;
    var rest := rs[..k] + rs[k + 1..];
    if k == n {
      assert rest == rs[..n];
    } else {
      HandledWithout(rs[..n], k, admin);
      assert rest[..n - 1] == rs[..n][..k] + rs[..n][k + 1..];
      assert rest[n - 1] == rs[n];
    }
  }

  lemma MultisetWithout<T>(s: seq<T>, k: nat)
    requires k < |s|
    ensures multiset(s[..k] + s[k + 1..]) == multiset(s) - multiset{s[k]}
  {
    assert s == s[..k] + [s[k]] + s[k + 1..];
  }

  /** Two orders of the same requests: take the last of one out of both. */
  lemma MatchLast(rs: seq<Request>, qs: seq<Request>) returns (k: nat)
    requires multiset(rs) == multiset(qs) && rs != []
    ensures k < |qs| && qs[k] == rs[|rs| - 1]
    ensures multiset(rs[..|rs| - 1]) == multiset(qs[..k] + qs[k + 1..])
  {
    var n := |rs| - 1;
    assert rs[n] in multiset(rs);
    k := Position(qs, rs[n]);
    MultisetWithout(rs, n);
    MultisetWithout(qs, k);
    assert rs[..n] + rs[n + 1..] == rs[..n];
  }

  /** The database returns the requests in some order; the result does not depend on which. */
  lemma {:induction false} OrderIrrelevant(rs: seq<Request>, qs: seq<Request>, admin: string)
    requires multiset(rs) == multiset(qs)
    ensures HandledBy(rs, admin) == HandledBy(qs, admin) && TimeBy(rs, admin) == TimeBy(qs, admin)
    decreases |rs|
  {
    assert |rs| == |multiset(rs)| == |multiset(qs)| == |qs|;
    if rs != [] {
      var n := |rs| - 1;
      var k := MatchLast(rs, qs);
      OrderIrrelevant(rs[..n], qs[..k] + qs[k + 1..], admin);
      HandledWithout(qs, k, admin);
    }
  }

  /** The overtime count is the number of pending requests of at least 24 times 60 minutes. */
  lemma {:induction false} OvertimeCounted(pending: seq<Request>, now: real, late: set<int>)
    requires forall i :: i in late <==> 0 <= i < |pending| && now - pending[i].timestamp >= 24.0 * 60.0
    ensures OvertimeCount(pending, now) == |late|
  {
    if pending == [] {
      assert forall i :: i !in late;
      assert late == {};
    } else {
      OvertimeCounted(pending[..|pending| - 1], now, late - {|pending| - 1});
    }
  }

  /** An admin's count is the number of requests with that admin. */
  lemma {:induction false} HandledCounted(rs: seq<Request>, admin: string, handled: set<int>)
    requires forall i :: i in handled <==> 0 <= i < |rs| && rs[i].admin == admin
    ensures HandledBy(rs, admin) == |handled|
  {
    if rs == [] {
      assert forall i :: i !in handled;
      assert handled == {};
    } else {
      HandledCounted(rs[..|rs| - 1], admin, handled - {|rs| - 1});
    }
  }

  /** The time of all requests, from application to decision. */
  function AllTime(rs: seq<Request>): real {
    if rs == [] then 0.0 else AllTime(rs[..|rs| - 1]) + (rs[|rs| - 1].processed - rs[|rs| - 1].timestamp)
  }

  function OfAdmin(rs: seq<Request>, admin: string): seq<Request> {
    if rs == [] then []
    else if rs[|rs| - 1].admin == admin then OfAdmin(rs[..|rs| - 1], admin) + [rs[|rs| - 1]]
    else OfAdmin(rs[..|rs| - 1], admin)
  }

  lemma {:induction false} OfAdminThose(rs: seq<Request>, admin: string)
    ensures forall r :: r in OfAdmin(rs, admin) <==> r in rs && r.admin == admin
  {
    if rs != [] {
      var n := |rs| - 1;
      OfAdminThose(rs[..n], admin);
      assert rs == rs[..n] + [rs[n]];
    }
  }

  lemma AllTimeSnoc(rs: seq<Request>, r: Request)
    ensures AllTime(rs + [r]) == AllTime(rs) + (r.processed - r.timestamp)
  {
    assert (rs + [r])[..|rs|] == rs;
  }

  /** An admin's total is the time of that admin's requests. */
  lemma {:induction false} TimeIsOfThose(rs: seq<Request>, admin: string)
    ensures TimeBy(rs, admin) == AllTime(OfAdmin(rs, admin))
  {
    if rs != [] {
      var n := |rs| - 1;
      TimeIsOfThose(rs[..n], admin);
      AllTimeSnoc(OfAdmin(rs[..n], admin), rs[n]);
    }
  }

  lemma {:induction false} HandlersAreAdmins(rs: seq<Request>, admin: string)
    ensures admin in Admins(rs) <==> HandledBy(rs, admin) > 0
  {
    if admin !in Admins(rs) {
      StrangersHandleNothing(rs, admin);
    } else if rs[|rs| - 1].admin != admin {
      var i :| 0 <= i < |rs| && rs[i].admin == admin;
      assert rs[..|rs| - 1][i].admin in Admins(rs[..|rs| - 1]);
      HandlersAreAdmins(rs[..|rs| - 1], admin);
    }
  }

  /** So the stored figures are a function of the set of requests alone. */
  lemma PerformanceIsDetermined(rs: seq<Request>, qs: seq<Request>,
                                p: map<string, Performance>, q: map<string, Performance>)
    requires multiset(rs) == multiset(qs) && Measures(p, rs) && Measures(q, qs)
    ensures p == q
  {
    forall admin: string
      ensures admin in p <==> admin in q
      ensures HandledBy(rs, admin) == HandledBy(qs, admin) && TimeBy(rs, admin) == TimeBy(qs, admin)
    {
      OrderIrrelevant(rs, qs, admin);
      HandlersAreAdmins(rs, admin);
      HandlersAreAdmins(qs, admin);
    }
    assert p.Keys == q.Keys;
  }

  lemma {:induction false} OvertimeWithout(rs: seq<Request>, k: nat, now: real)
    requires k < |rs|
    ensures OvertimeCount(rs, now)
         == OvertimeCount(rs[..k] + rs[k + 1..], now) + (if now - rs[k].timestamp >= OVERTIME_MINUTES then 1 else 0)
    decreases |rs|
  {
    var n := |rs| - 1;
    var rest := rs[..k] + rs[k + 1..];
    if k == n {
      assert rest == rs[..n];
    } else {
      OvertimeWithout(rs[..n], k, now);
      assert rest[..n - 1] == rs[..n][..k] + rs[..n][k + 1..];
      assert rest[n - 1] == rs[n];
    }
  }

  lemma {:induction false} OvertimeOrderIrrelevant(rs: seq<Request>, qs: seq<Request>, now: real)
    requires multiset(rs) == multiset(qs)
    ensures OvertimeCount(rs, now) == OvertimeCount(qs, now)
    decreases |rs|
  {
    assert |rs| == |multiset(rs)| == |multiset(qs)| == |qs|;
    if rs != [] {
      var n := |rs| - 1;
      var k := MatchLast(rs, qs);
      OvertimeOrderIrrelevant(rs[..n], qs[..k] + qs[k + 1..], now);
      OvertimeWithout(qs, k, now);
    }
  }

  /** The stored aggregate is the group-by of the fulfilled requests and the overtime count of the pending ones. */
  ghost predicate Summarizes(a: AggregateStats, pending: seq<Request>, fulfilled: seq<Request>, now: real) {
    a.overtime == OvertimeCount(pending, now) && Measures(a.performance, fulfilled)
  }

  /** The whole result is independent of the order in which the database returns the requests. */
  lemma AggregateIsDetermined(a: AggregateStats, pending: seq<Request>, fulfilled: seq<Request>,
                              b: AggregateStats, pending': seq<Request>, fulfilled': seq<Request>, now: real)
    requires multiset(pending) == multiset(pending') && multiset(fulfilled) == multiset(fulfilled')
    requires Summarizes(a, pending, fulfilled, now) && Summarizes(b, pending', fulfilled', now)
    ensures a == b
  {
    OvertimeOrderIrrelevant(pending, pending', now);
    PerformanceIsDetermined(fulfilled, fulfilled', a.performance, b.performance);
  }

  lemma Position<T>(s: seq<T>, x: T) returns (k: nat)
    requires x in multiset(s)
    ensures k < |s| && s[k] == x
  {
    k :| 0 <= k < |s| && s[k] == x;
  }
}
