/** Conservation and order of messages under redelivery, expiry, dead-lettering and crashes. */
module Delivery {
  import opened Requests
  import opened Pipeline

  /** The unsettled messages are exactly the ledger's queued entries, each once, in publish order. */
  ghost predicate Conserved(out: seq<Message>, ledger: seq<Entry>) {
    && (forall i, j :: 0 <= i < j < |out| ==> out[i].tag < out[j].tag)
    && (forall i :: 0 <= i < |out| ==> Recorded(out[i], ledger) && ledger[out[i].tag].fate == Queued)
    && (forall t :: 0 <= t < |ledger| && ledger[t].fate == Queued ==> exists i :: 0 <= i < |out| && out[i].tag == t)
  }

  ghost predicate Recorded(m: Message, ledger: seq<Entry>) {
    m.tag < |ledger| && ledger[m.tag].body == m.body
  }

  ghost predicate DeliveryOk(s: State) {
    && Conserved(Outstanding(s), s.ledger)
    && (s.worker.Busy? ==>
          && Recorded(s.worker.m, s.ledger)
          && if s.worker.stale then s.ledger[s.worker.m.tag].fate in {Queued, Dead}
             else s.unacked != [] && s.unacked[0] == s.worker.m)
  }

  lemma ConservedAppend(out: seq<Message>, ledger: seq<Entry>, e: Entry)
    requires Conserved(out, ledger)
    ensures e.fate == Queued ==> Conserved(out + [Message(|ledger|, e.body)], ledger + [e])
    ensures e.fate != Queued ==> Conserved(out, ledger + [e])
  {
    if e.fate == Queued {
      ConservedQueue(out, ledger, e);
    } else {
      ConservedSkip(out, ledger, e);
    }
  }

  lemma ConservedQueue(out: seq<Message>, ledger: seq<Entry>, e: Entry)
    requires Conserved(out, ledger) && e.fate == Queued
    ensures Conserved(out + [Message(|ledger|, e.body)], ledger + [e])
  {
    forall i | 0 <= i < |out|
      ensures Recorded(out[i], ledger + [e]) && (ledger + [e])[out[i].tag].fate == Queued
    {
      assert Recorded(out[i], ledger);
    }
    AppendedIsFound(out, ledger, e);
  }

  lemma ConservedSkip(out: seq<Message>, ledger: seq<Entry>, e: Entry)
    requires Conserved(out, ledger) && e.fate != Queued
    ensures Conserved(out, ledger + [e])
  {
    forall i | 0 <= i < |out|
      ensures Recorded(out[i], ledger + [e]) && (ledger + [e])[out[i].tag].fate == Queued
    {
      assert Recorded(out[i], ledger);
    }
  }

  lemma AppendedIsFound(out: seq<Message>, ledger: seq<Entry>, e: Entry)
    requires Conserved(out, ledger)
    ensures var out', ledger' := out + [Message(|ledger|, e.body)], ledger + [e];
            forall t :: 0 <= t < |ledger'| && ledger'[t].fate == Queued ==>
              exists i :: 0 <= i < |out'| && out'[i].tag == t
  {
    var out', ledger' := out + [Message(|ledger|, e.body)], ledger + [e];
    forall t | 0 <= t < |ledger'| && ledger'[t].fate == Queued
      ensures exists i :: 0 <= i < |out'| && out'[i].tag == t
    {
      if t < |ledger| {
        assert ledger'[t] == ledger[t];
        var i :| 0 <= i < |out| && out[i].tag == t;
        assert out'[i].tag == t;
      } else {
        assert out'[|out|].tag == t;
      }
    }
  }

  function Without(out: seq<Message>, k: nat): seq<Message>
    requires k < |out|
  {
    out[..k] + out[k + 1..]
  }

  lemma WithoutAt(out: seq<Message>, k: nat)
    requires k < |out|
    ensures |Without(out, k)| == |out| - 1
    ensures forall i :: 0 <= i < |out| - 1 ==> Without(out, k)[i] == out[if i < k then i else i + 1]
  {
  }

  lemma ConservedRemove(out: seq<Message>, ledger: seq<Entry>, k: nat, fate: Fate)
    requires Conserved(out, ledger) && k < |out| && fate != Queued
    ensures Conserved(Without(out, k), SetFate(ledger, out[k].tag, fate))
  {
    var out', ledger' := Without(out, k), SetFate(ledger, out[k].tag, fate);
    WithoutAt(out, k);
    forall i | 0 <= i < |out'|
      ensures Recorded(out'[i], ledger') && ledger'[out'[i].tag].fate == Queued
    {
      var j := if i < k then i else i + 1;
      assert out'[i] == out[j] && Recorded(out[j], ledger) && out[j].tag != out[k].tag;
    }
    forall t | 0 <= t < |ledger'| && ledger'[t].fate == Queued
      ensures exists i :: 0 <= i < |out'| && out'[i].tag == t
    {
      RemainsQueued(out, ledger, k, t);
    }
  }

  lemma RemainsQueued(out: seq<Message>, ledger: seq<Entry>, k: nat, t: nat)
    requires Conserved(out, ledger) && k < |out|
    requires t < |ledger| && ledger[t].fate == Queued && t != out[k].tag
    ensures exists i :: 0 <= i < |Without(out, k)| && Without(out, k)[i].tag == t
  {
    var i :| 0 <= i < |out| && out[i].tag == t;
    WithoutAt(out, k);
    assert Without(out, k)[if i < k then i else i - 1] == out[i];
  }

  /** Counting and refreshing annotate the ledger without touching bodies or fates. */
  ghost predicate SameFates(ledger: seq<Entry>, ledger': seq<Entry>) {
    && |ledger| == |ledger'|
    && forall t :: 0 <= t < |ledger| ==> ledger[t].body == ledger'[t].body && ledger[t].fate == ledger'[t].fate
  }

  lemma ConservedAnnotate(out: seq<Message>, ledger: seq<Entry>, ledger': seq<Entry>)
    requires Conserved(out, ledger) && SameFates(ledger, ledger')
    ensures Conserved(out, ledger')
  {
  }

  lemma DeliveryOkPublish(s: State, s0: State, body: Request, published: bool)
    requires DeliveryOk(s)
    requires s0.ready == s.ready && s0.unacked == s.unacked && s0.worker == s.worker && s0.ledger == s.ledger
    ensures DeliveryOk(Publish(s0, body, published))
  {
    ConservedAppend(Outstanding(s), s.ledger, Entry(body, if published then Queued else Unpublished, 0, false));
    assert Outstanding(Publish(s0, body, true)) == Outstanding(s) + [Message(|s.ledger|, body)];
  }

  lemma DeliveryOkSettle(s: State)
    requires DeliveryOk(s)
    ensures DeliveryOk(SettleMessage(s))
  {
    if s.worker.Busy? && s.worker.phase.Settling? && !s.worker.stale {
      ConservedRemove(Outstanding(s), s.ledger, 0, if s.worker.phase.ack then Acked else Dead);
      assert Outstanding(SettleMessage(s)) == Without(Outstanding(s), 0);
    }
  }

  lemma DeliveryOkExpire(s: State)
    requires DeliveryOk(s)
    ensures DeliveryOk(ExpireHead(s))
  {
    if s.ready != [] {
      var out, k := Outstanding(s), |s.unacked|;
      ConservedRemove(out, s.ledger, k, Dead);
      assert Outstanding(ExpireHead(s)) == Without(out, k);
      assert out[k] == s.ready[0];
    }
  }

  /** Steps that move no message in or out of the unsettled sequence. */
  predicate Internal(a: Action) {
    !(a.Create? || a.OpPatch? || a.AdminPatch? || a.Settle? || a.Expire?)
  }

  lemma InternalKeepsMessages(s: State, a: Action)
    requires Internal(a)
    ensures Outstanding(Apply(s, a)) == Outstanding(s)
    ensures SameFates(s.ledger, Apply(s, a).ledger)
  {
  }

  lemma InternalKeepsWorker(s: State, a: Action)
    requires Internal(a) && (a.Take? ==> !s.worker.Idle?)
    ensures var s' := Apply(s, a);
            s'.worker.Busy? ==>
              && s.worker.Busy? && s'.worker.m == s.worker.m
              && if s'.worker.stale then true else !s.worker.stale && s.unacked <= s'.unacked
  {
  }

  lemma DeliveryOkTake(s: State)
    requires DeliveryOk(s) && s.worker.Idle?
    ensures DeliveryOk(TakeNext(s))
  {
    if s.unacked != [] {
      assert Outstanding(s)[0] == s.unacked[0];
    }
  }

  lemma DeliveryOkInternal(s: State, a: Action)
    requires DeliveryOk(s) && Internal(a)
    ensures DeliveryOk(Apply(s, a))
  {
    if a.Take? && s.worker.Idle? {
      DeliveryOkTake(s);
    } else {
      InternalKeepsMessages(s, a);
      ConservedAnnotate(Outstanding(s), s.ledger, Apply(s, a).ledger);
      InternalKeepsWorker(s, a);
      if s.unacked != [] {
        assert Outstanding(s)[0] == s.unacked[0];
      }
    }
  }

  lemma DeliveryOkStep(s: State, a: Action)
    requires DeliveryOk(s)
    ensures DeliveryOk(Apply(s, a))
  {
    match a
    case Create(username, age, gender, now, published) =>
      if !Blocked(s.rows, username) {
        var r := NewRequest(|s.rows|, username, age, gender, now);
        DeliveryOkPublish(s, s.(rows := s.rows + [r], clock := now), r.(timestamp := NO_TIME), published);
      }
    case OpPatch(id, op, status, now, later, published) =>
      if OpAllowed(s.rows, id, op) {
        var r := Patched(s.rows[id], status, op, now, later);
        DeliveryOkPublish(s, s.(rows := s.rows[id := r], clock := later), r, published);
      }
    case AdminPatch(id, status, now, later, published) =>
      if id < |s.rows| {
        var r := Patched(s.rows[id], status, "admin", now, later);
        DeliveryOkPublish(s, s.(rows := s.rows[id := r], clock := later), r, published);
      }
    case Settle => DeliveryOkSettle(s);
    case Expire => DeliveryOkExpire(s);
    case _ =>
      DeliveryOkInternal(s, a);
  }

  /** Settled messages stay settled, nothing is forgotten, and bodies are immutable. */
  ghost predicate LedgerGrows(ledger: seq<Entry>, ledger': seq<Entry>) {
    && |ledger| <= |ledger'|
    && forall t :: 0 <= t < |ledger| ==>
         && ledger'[t].body == ledger[t].body
         && (ledger[t].fate != Queued ==> ledger'[t].fate == ledger[t].fate)
  }

  lemma LedgerGrowsPublish(s: State, a: Action)
    requires a.Create? || a.OpPatch? || a.AdminPatch?
    ensures LedgerGrows(s.ledger, Apply(s, a).ledger)
  {
  }

  lemma LedgerGrowsRemove(s: State, a: Action)
    requires DeliveryOk(s) && (a.Settle? || a.Expire?)
    ensures LedgerGrows(s.ledger, Apply(s, a).ledger)
  {
    if s.unacked != [] {
      assert s.unacked[0] == Outstanding(s)[0];
    }
    if s.ready != [] {
      assert s.ready[0] == Outstanding(s)[|s.unacked|];
    }
  }

  lemma LedgerGrowsStep(s: State, a: Action)
    requires DeliveryOk(s)
    ensures LedgerGrows(s.ledger, Apply(s, a).ledger)
  {
    if Internal(a) {
      InternalKeepsMessages(s, a);
    } else if a.Settle? || a.Expire? {
      LedgerGrowsRemove(s, a);
    } else {
      LedgerGrowsPublish(s, a);
    }
  }
}
