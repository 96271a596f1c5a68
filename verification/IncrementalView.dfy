/** A maintained total and the recount it stands for, for any way of weighing requests: d is what one message
    adds to the total, c what one row adds to the recount. */
module IncrementalView {
  import opened Requests
  import opened Stats
  import opened Pipeline
  import opened Delivery

  /** What a transition still owes the total: its delta, less one delta for every time it was counted.
      A lost or waiting message was not counted at all; a redelivered one may have been counted twice. */
  function Owed(d: Request -> Tally, e: Entry): Tally {
    d(e.body).Minus(Times(e.counted, d(e.body)))
  }

  function Drift(d: Request -> Tally, ledger: seq<Entry>): Tally {
    if ledger == [] then ZERO else Drift(d, ledger[..|ledger| - 1]).Plus(Owed(d, ledger[|ledger| - 1]))
  }

  /** total + skew + drift == recount, componentwise. */
  ghost predicate Balanced(d: Request -> Tally, c: Request -> Tally, total: Tally, skew: Tally,
                           ledger: seq<Entry>, rows: seq<Request>)
  {
    total.Plus(skew).Plus(Drift(d, ledger)) == Sum(rows, c)
  }

  lemma DriftAppend(d: Request -> Tally, ledger: seq<Entry>, e: Entry)
    requires e.counted == 0
    ensures Drift(d, ledger + [e]) == Drift(d, ledger).Plus(d(e.body))
  {
    assert (ledger + [e])[..|ledger|] == ledger;
  }

  lemma {:induction false} DriftCounted(d: Request -> Tally, ledger: seq<Entry>, t: nat)
    requires t < |ledger|
    ensures Drift(d, Counted(ledger, t)) == Drift(d, ledger).Minus(d(ledger[t].body))
  {
    var n := |ledger| - 1;
    var x := d(ledger[t].body);
    if t == n {
      assert Counted(ledger, t)[..n] == ledger[..n];
      OwedOnceLess(Drift(d, ledger[..n]), Times(ledger[t].counted, x), x);
    } else {
      DriftCounted(d, ledger[..n], t);
      assert Counted(ledger, t)[..n] == Counted(ledger[..n], t);
      Swap(Drift(d, ledger[..n]), Owed(d, ledger[n]), x);
    }
  }

  lemma OwedOnceLess(rest: Tally, times: Tally, x: Tally)
    ensures rest.Plus(x.Minus(times.Plus(x))) == rest.Plus(x.Minus(times)).Minus(x)
  {
  }

  lemma Swap(a: Tally, b: Tally, x: Tally)
    ensures a.Minus(x).Plus(b) == a.Plus(b).Minus(x)
  {
  }

  function Counted(ledger: seq<Entry>, t: nat): seq<Entry>
    requires t < |ledger|
  {
    ledger[t := ledger[t].(counted := ledger[t].counted + 1)]
  }

  lemma {:induction false} DriftSame(d: Request -> Tally, ledger: seq<Entry>, ledger': seq<Entry>)
    requires |ledger| == |ledger'|
    requires forall t :: 0 <= t < |ledger| ==>
               ledger[t].body == ledger'[t].body && ledger[t].counted == ledger'[t].counted
    ensures Drift(d, ledger) == Drift(d, ledger')
  {
    if ledger != [] {
      DriftSame(d, ledger[..|ledger| - 1], ledger'[..|ledger| - 1]);
    }
  }

  lemma {:induction false} DriftSettled(d: Request -> Tally, ledger: seq<Entry>)
    requires forall e :: e in ledger ==> e.counted == 1
    ensures Drift(d, ledger) == ZERO
  {
    if ledger != [] {
      var e := ledger[|ledger| - 1];
      DriftSettled(d, ledger[..|ledger| - 1]);
      assert Times(1, d(e.body)) == Times(0, d(e.body)).Plus(d(e.body));
    }
  }

  lemma BalancedAppend(d: Request -> Tally, c: Request -> Tally, total: Tally, skew: Tally,
                       ledger: seq<Entry>, rows: seq<Request>, e: Entry, r: Request)
    requires Balanced(d, c, total, skew, ledger, rows)
    requires e.counted == 0 && d(e.body) == c(r)
    ensures Balanced(d, c, total, skew, ledger + [e], rows + [r])
  {
    DriftAppend(d, ledger, e);
    SumAppend(rows, r, c);
  }

  /** Overwriting a row keeps the balance exactly if its message's delta is the change of its contribution. */
  lemma BalancedUpdateIff(d: Request -> Tally, c: Request -> Tally, total: Tally, skew: Tally,
                          ledger: seq<Entry>, rows: seq<Request>, e: Entry, id: nat)
    requires Balanced(d, c, total, skew, ledger, rows)
    requires e.counted == 0 && id < |rows|
    ensures Balanced(d, c, total, skew, ledger + [e], rows[id := e.body])
       <==> c(rows[id]).Plus(d(e.body)) == c(e.body)
  {
    DriftAppend(d, ledger, e);
    SumUpdate(rows, id, e.body, c);
  }

  lemma BalancedCount(d: Request -> Tally, c: Request -> Tally, total: Tally, skew: Tally,
                      ledger: seq<Entry>, rows: seq<Request>, t: nat)
    requires Balanced(d, c, total, skew, ledger, rows) && t < |ledger|
    ensures Balanced(d, c, total.Plus(d(ledger[t].body)), skew, Counted(ledger, t), rows)
  {
    DriftCounted(d, ledger, t);
  }

  lemma BalancedSame(d: Request -> Tally, c: Request -> Tally, total: Tally, skew: Tally,
                     ledger: seq<Entry>, rows: seq<Request>, ledger': seq<Entry>, rows': seq<Request>)
    requires Balanced(d, c, total, skew, ledger, rows)
    requires |ledger| == |ledger'| && |rows| == |rows'|
    requires forall t :: 0 <= t < |ledger| ==>
               ledger[t].body == ledger'[t].body && ledger[t].counted == ledger'[t].counted
    requires forall i :: 0 <= i < |rows| ==> c(rows[i]) == c(rows'[i])
    ensures Balanced(d, c, total, skew, ledger', rows')
  {
    DriftSame(d, ledger, ledger');
    SumEqual(rows, c, rows', c);
  }

  lemma BalancedSettled(d: Request -> Tally, c: Request -> Tally, total: Tally, skew: Tally,
                        ledger: seq<Entry>, rows: seq<Request>)
    requires forall e :: e in ledger ==> e.counted == 1
    requires total.Plus(skew) == Sum(rows, c)
    ensures Balanced(d, c, total, skew, ledger, rows)
  {
    DriftSettled(d, ledger);
  }

  // ----- counting twice -----

  function OfBody(d: Request -> Tally): Message -> Tally {
    (m: Message) => d(m.body)
  }

  ghost function Tags(out: seq<Message>): set<nat> {
    set i | 0 <= i < |out| :: out[i].tag
  }

  /** Messages on record in a ledger, in publish order. */
  ghost predicate Recalled(out: seq<Message>, ledger: seq<Entry>) {
    && (forall i, j :: 0 <= i < j < |out| ==> out[i].tag < out[j].tag)
    && (forall i :: 0 <= i < |out| ==> Recorded(out[i], ledger))
  }

  /** Every entry was counted, those of the messages once too often. */
  ghost predicate Overcounted(ledger: seq<Entry>, out: seq<Message>) {
    forall t :: 0 <= t < |ledger| ==> ledger[t].counted == if t in Tags(out) then 2 else 1
  }

  predicate EndsWith(out: seq<Message>, tag: nat) {
    out != [] && out[|out| - 1].tag == tag
  }

  lemma RecalledFront(out: seq<Message>, ledger: seq<Entry>)
    requires Recalled(out, ledger) && ledger != []
    ensures var m, n := |out| - 1, |ledger| - 1;
            Recalled(if EndsWith(out, n) then out[..m] else out, ledger[..n])
  {
    var m, n := |out| - 1, |ledger| - 1;
    var front := if EndsWith(out, n) then out[..m] else out;
    forall i | 0 <= i < |front|
      ensures Recorded(front[i], ledger[..n])
    {
      assert Recorded(out[i], ledger) && out[i].tag <= out[m].tag && Recorded(out[m], ledger);
    }
  }

  lemma OvercountedFront(out: seq<Message>, ledger: seq<Entry>)
    requires Recalled(out, ledger) && Overcounted(ledger, out) && ledger != []
    ensures var m, n := |out| - 1, |ledger| - 1;
            && Overcounted(ledger[..n], if EndsWith(out, n) then out[..m] else out)
            && ledger[n].counted == if EndsWith(out, n) then 2 else 1
  {
    var m, n := |out| - 1, |ledger| - 1;
    if EndsWith(out, n) {
      assert n in Tags(out);
      forall t | 0 <= t < n
        ensures t in Tags(out[..m]) <==> t in Tags(out)
      {
        TagsFront(out, t);
      }
    }
  }

  lemma TagsFront(out: seq<Message>, t: nat)
    requires out != [] && t != out[|out| - 1].tag
    ensures t in Tags(out[..|out| - 1]) <==> t in Tags(out)
  {
    var front := out[..|out| - 1];
    if t in Tags(out) {
      var i :| 0 <= i < |out| && out[i].tag == t;
      assert front[i].tag == t;
    }
  }

  lemma OwedOneOrTwo(d: Request -> Tally, e: Entry)
    ensures e.counted == 1 ==> Owed(d, e) == ZERO
    ensures e.counted == 2 ==> Owed(d, e) == ZERO.Minus(d(e.body))
  {
    var x := d(e.body);
    assert Times(1, x) == Times(0, x).Plus(x) && Times(2, x) == Times(1, x).Plus(x);
  }

  /** Entries counted once too often owe minus their messages' deltas. */
  lemma {:induction false} DriftOfLeftovers(d: Request -> Tally, ledger: seq<Entry>, out: seq<Message>)
    requires Recalled(out, ledger) && Overcounted(ledger, out)
    ensures Drift(d, ledger) == ZERO.Minus(Sum(out, OfBody(d)))
  {
    if ledger == [] {
      NothingRecalled(out);
    } else {
      var m, n := |out| - 1, |ledger| - 1;
      RecalledFront(out, ledger);
      OvercountedFront(out, ledger);
      OwedOneOrTwo(d, ledger[n]);
      if EndsWith(out, n) {
        DriftOfLeftovers(d, ledger[..n], out[..m]);
        LastRecalled(d, out, ledger);
        MinusOneMore(Sum(out[..m], OfBody(d)), d(ledger[n].body));
      } else {
        DriftOfLeftovers(d, ledger[..n], out);
        MinusNothing(Sum(out, OfBody(d)));
      }
    }
  }

  lemma NothingRecalled(out: seq<Message>)
    requires Recalled(out, [])
    ensures out == []
  {
    assert out != [] ==> Recorded(out[0], []);
  }

  lemma LastRecalled(d: Request -> Tally, out: seq<Message>, ledger: seq<Entry>)
    requires Recalled(out, ledger) && ledger != [] && EndsWith(out, |ledger| - 1)
    ensures Sum(out, OfBody(d)) == Sum(out[..|out| - 1], OfBody(d)).Plus(d(ledger[|ledger| - 1].body))
  {
    assert Recorded(out[|out| - 1], ledger);
  }

  lemma MinusNothing(sum: Tally)
    ensures ZERO.Minus(sum).Plus(ZERO) == ZERO.Minus(sum)
  {
  }

  lemma MinusOneMore(sum: Tally, d: Tally)
    ensures ZERO.Minus(sum).Plus(ZERO.Minus(d)) == ZERO.Minus(sum.Plus(d))
  {
  }

  // ----- the drift by cause -----

  /** Published, unsettled, not yet counted. */
  function Waiting(d: Request -> Tally, ledger: seq<Entry>): Tally {
    if ledger == [] then ZERO
    else PlusIf(Waiting(d, ledger[..|ledger| - 1]), IsWaiting(ledger[|ledger| - 1]), d(ledger[|ledger| - 1].body))
  }

  /** Never published, or settled without a successful count. */
  function Missed(d: Request -> Tally, ledger: seq<Entry>): Tally {
    if ledger == [] then ZERO
    else PlusIf(Missed(d, ledger[..|ledger| - 1]), IsMissed(ledger[|ledger| - 1]), d(ledger[|ledger| - 1].body))
  }

  /** Counted again after the first time, as often as that happened. */
  function Repeated(d: Request -> Tally, ledger: seq<Entry>): Tally {
    if ledger == [] then ZERO
    else
      var e := ledger[|ledger| - 1];
      PlusIf(Repeated(d, ledger[..|ledger| - 1]), e.counted > 1, Times(Again(e), d(e.body)))
  }

  predicate IsWaiting(e: Entry) {
    e.counted == 0 && e.fate == Queued
  }

  predicate IsMissed(e: Entry) {
    e.counted == 0 && e.fate != Queued
  }

  function Again(e: Entry): nat {
    if e.counted > 1 then e.counted - 1 else 0
  }

  function PlusIf(t: Tally, condition: bool, x: Tally): Tally {
    if condition then t.Plus(x) else t
  }

  /** What the three are worth: no cause, no share in the drift. */
  lemma {:induction false} CausesVanish(d: Request -> Tally, ledger: seq<Entry>)
    ensures (forall e :: e in ledger ==> e.fate != Queued || e.counted > 0) ==> Waiting(d, ledger) == ZERO
    ensures (forall e :: e in ledger ==> e.fate == Queued || e.counted > 0) ==> Missed(d, ledger) == ZERO
    ensures (forall e :: e in ledger ==> e.counted <= 1) ==> Repeated(d, ledger) == ZERO
  {
    if ledger != [] {
      CausesVanish(d, ledger[..|ledger| - 1]);
      assert ledger[|ledger| - 1] in ledger;
    }
  }

  ghost predicate ByCause(drift: Tally, w: Tally, m: Tally, p: Tally) {
    drift == w.Plus(m).Minus(p)
  }

  lemma {:induction false} DriftByCause(d: Request -> Tally, ledger: seq<Entry>)
    ensures ByCause(Drift(d, ledger), Waiting(d, ledger), Missed(d, ledger), Repeated(d, ledger))
  {
    if ledger != [] {
      var rest := ledger[..|ledger| - 1];
      var e := ledger[|ledger| - 1];
      DriftByCause(d, rest);
      CauseOf(Drift(d, rest), Waiting(d, rest), Missed(d, rest), Repeated(d, rest), e, d(e.body));
      assert Drift(d, ledger) == Drift(d, rest).Plus(Owed(d, e));
      assert Waiting(d, ledger) == PlusIf(Waiting(d, rest), IsWaiting(e), d(e.body));
      assert Missed(d, ledger) == PlusIf(Missed(d, rest), IsMissed(e), d(e.body));
      assert Repeated(d, ledger) == PlusIf(Repeated(d, rest), e.counted > 1, Times(Again(e), d(e.body)));
    } else {
      assert Drift(d, ledger) == Waiting(d, ledger) == Missed(d, ledger) == Repeated(d, ledger) == ZERO;
    }
  }

  lemma CauseOf(drift: Tally, w: Tally, m: Tally, p: Tally, e: Entry, x: Tally)
    requires ByCause(drift, w, m, p)
    ensures ByCause(drift.Plus(x.Minus(Times(e.counted, x))),
                    PlusIf(w, IsWaiting(e), x), PlusIf(m, IsMissed(e), x), PlusIf(p, e.counted > 1, Times(Again(e), x)))
  {
    if e.counted == 1 {
      assert Times(1, x) == Times(0, x).Plus(x);
    } else if e.counted > 1 {
      OneRepeated(drift, w, m, p, x, Times(e.counted - 1, x));
    }
  }

  lemma OneRepeated(drift: Tally, w: Tally, m: Tally, p: Tally, x: Tally, again: Tally)
    requires ByCause(drift, w, m, p)
    ensures ByCause(drift.Plus(x.Minus(again.Plus(x))), w, m, p.Plus(again))
  {
  }

  /** The balance, with the drift split by cause. */
  lemma BalancedByCause(d: Request -> Tally, c: Request -> Tally, total: Tally, skew: Tally,
                        ledger: seq<Entry>, rows: seq<Request>)
    requires Balanced(d, c, total, skew, ledger, rows)
    ensures Sum(rows, c)
         == total.Plus(skew).Plus(Waiting(d, ledger).Plus(Missed(d, ledger)).Minus(Repeated(d, ledger)))
  {
    DriftByCause(d, ledger);
  }
}
