/** Choosing and mailing the ops of a new request (worker.go, getTargetOps and emailToOps). */
module Dispatch {
  import opened Requests

  datatype Strategy = Broadcast | Random

  // ----- choosing -----

  ghost predicate Distinct<T(!new)>(s: seq<T>) {
    forall i, j :: 0 <= i < j < |s| ==> s[i] != s[j]
  }

  /** The swaps of rand.Shuffle: position i, from the last down, with a random position at or below it. */
  function Shuffled<T>(s: seq<T>, picks: seq<nat>): (r: seq<T>)
    ensures |r| == |s|
    decreases |picks|
  {
    if picks == [] || |picks| >= |s| then s
    else
      var i := |picks|;
      var j := picks[i - 1] % (i + 1);
      Shuffled(s[i := s[j]][j := s[i]], picks[..i - 1])
  }

  lemma SwapPermutes<T>(s: seq<T>, i: nat, j: nat)
    requires i < |s| && j < |s|
    ensures multiset(s[i := s[j]][j := s[i]]) == multiset(s)
  {
  }

  lemma SwapKeepsDistinct<T(!new)>(s: seq<T>, i: nat, j: nat)
    requires i < |s| && j < |s| && Distinct(s)
    ensures Distinct(s[i := s[j]][j := s[i]])
  {
  }

  /** Shuffling loses no op and invents none, and keeps distinct ops distinct. */
  lemma {:induction false} ShuffledPermutes<T(!new)>(s: seq<T>, picks: seq<nat>)
    ensures multiset(Shuffled(s, picks)) == multiset(s)
    ensures Distinct(s) ==> Distinct(Shuffled(s, picks))
    decreases |picks|
  {
    if picks != [] && |picks| < |s| {
      var i := |picks|;
      var j := picks[i - 1] % (i + 1);
      var swapped := s[i := s[j]][j := s[i]];
      SwapPermutes(s, i, j);
      if Distinct(s) {
        SwapKeepsDistinct(s, i, j);
      }
      ShuffledPermutes(swapped, picks[..i - 1]);
    }
  }

  /** What is left once two sequences agree from i on is again the same elements. */
  lemma PrefixSame<T>(s: seq<T>, q: seq<T>, i: nat)
    requires |s| == |q| && i <= |s| && multiset(s) == multiset(q) && s[i..] == q[i..]
    ensures multiset(s[..i]) == multiset(q[..i])
  {
    assert s == s[..i] + s[i..] && q == q[..i] + q[i..];
    assert multiset(s[..i]) == multiset(s) - multiset(s[i..]);
    assert multiset(q[..i]) == multiset(q) - multiset(q[i..]);
  }

  /** Whatever belongs at position i is at or below it, if everything above is in place. */
  lemma FindBelow<T>(s: seq<T>, q: seq<T>, i: nat) returns (j: nat)
    requires |s| == |q| && i < |s| && multiset(s) == multiset(q) && s[i + 1..] == q[i + 1..]
    ensures j <= i && s[j] == q[i]
  {
    PrefixSame(s, q, i + 1);
    assert q[..i + 1][i] in multiset(s[..i + 1]);
    j :| 0 <= j < i + 1 && s[..i + 1][j] == q[i];
  }

  lemma SwapSettles<T>(s: seq<T>, q: seq<T>, i: nat, j: nat)
    requires |s| == |q| && j <= i < |s| && s[j] == q[i] && s[i + 1..] == q[i + 1..]
    ensures s[i := s[j]][j := s[i]][i..] == q[i..]
  {
    var swapped := s[i := s[j]][j := s[i]];
    forall k | i <= k < |s|
      ensures swapped[k] == q[k]
    {
      if k > i {
        assert s[i + 1..][k - i - 1] == q[i + 1..][k - i - 1];
      }
    }
  }

  lemma SmallModulus(j: nat, n: nat)
    requires j < n
    ensures j % n == j
  {
  }

  lemma ShuffleOnceMore<T>(s: seq<T>, front: seq<nat>, j: nat)
    requires |front| + 1 < |s| && j <= |front| + 1
    ensures Shuffled(s, front + [j]) == Shuffled(s[|front| + 1 := s[j]][j := s[|front| + 1]], front)
  {
    SmallModulus(j, |front| + 2);
    assert (front + [j])[..|front|] == front;
  }

  /** A fair shuffle: no order of the ops is out of reach of the random numbers. The picks need not exceed the
      positions they are made for. */
  lemma {:induction false} ShuffleReachesEvery<T>(s: seq<T>, q: seq<T>, i: nat) returns (picks: seq<nat>)
    requires |s| == |q| && i < |s| && multiset(s) == multiset(q) && s[i + 1..] == q[i + 1..]
    ensures |picks| == i && (forall k :: 0 <= k < i ==> picks[k] <= k + 1)
    ensures Shuffled(s, picks) == q
    decreases i
  {
    var j := FindBelow(s, q, i);
    if i == 0 {
      picks := [];
      assert s == [s[0]] + s[1..] && q == [q[0]] + q[1..];
    } else {
      SwapPermutes(s, i, j);
      SwapSettles(s, q, i, j);
      var front := ShuffleReachesEvery(s[i := s[j]][j := s[i]], q, i - 1);
      picks := front + [j];
      ShuffleOnceMore(s, front, j);
    }
  }

  lemma EveryOrderIsPossible<T>(s: seq<T>, q: seq<T>) returns (picks: seq<nat>)
    requires multiset(s) == multiset(q)
    ensures |picks| + 1 == |s| || |s| == 0 == |picks|
    ensures Shuffled(s, picks) == q
  {
    assert |s| == |multiset(s)| == |multiset(q)| == |q|;
    if s == [] {
      picks := [];
    } else {
      picks := ShuffleReachesEvery(s, q, |s| - 1);
    }
  }

  lemma {:induction false} ShuffledAbove<T>(s: seq<T>, picks: seq<nat>, k: nat)
    requires |picks| < k < |s|
    ensures Shuffled(s, picks)[k] == s[k]
    decreases |picks|
  {
    if picks != [] {
      var i := |picks|;
      ShuffledAbove(s[i := s[picks[i - 1] % (i + 1)]][picks[i - 1] % (i + 1) := s[i]], picks[..i - 1], k);
    }
  }

  ghost predicate InRange(picks: seq<nat>) {
    forall k :: 0 <= k < |picks| ==> picks[k] <= k + 1
  }

  /** The last pick decides what ends up at its position. */
  lemma LastPick<T>(s: seq<T>, front: seq<nat>, j: nat)
    requires |front| + 1 < |s| && j <= |front| + 1
    ensures Shuffled(s, front + [j])[|front| + 1] == s[j]
  {
    var i := |front| + 1;
    ShuffleOnceMore(s, front, j);
    ShuffledAbove(s[i := s[j]][j := s[i]], front, i);
  }

  lemma SameLastPick<T(!new)>(s: seq<T>, front: seq<nat>, j: nat, front': seq<nat>, j': nat)
    requires Distinct(s) && |front| == |front'| < |s| - 1 && j <= |front| + 1 && j' <= |front| + 1
    requires Shuffled(s, front + [j]) == Shuffled(s, front' + [j'])
    ensures j == j'
    ensures var swapped := s[|front| + 1 := s[j]][j := s[|front| + 1]];
            Distinct(swapped) && Shuffled(swapped, front) == Shuffled(swapped, front')
  {
    LastPick(s, front, j);
    LastPick(s, front', j');
    SamePosition(s, j, j');
    ShuffleOnceMore(s, front, j);
    ShuffleOnceMore(s, front', j);
    SwapKeepsDistinct(s, |front| + 1, j);
  }

  /** And no order of distinct ops is more likely than another: each is reached by only one sequence of picks. */
  lemma {:induction false} PicksDiffer<T(!new)>(s: seq<T>, picks: seq<nat>, picks': seq<nat>)
    requires Distinct(s) && |picks| == |picks'| < |s| && InRange(picks) && InRange(picks')
    requires Shuffled(s, picks) == Shuffled(s, picks')
    ensures picks == picks'
    decreases |picks|
  {
    if picks != [] {
      var i, front, front' := |picks|, picks[..|picks| - 1], picks'[..|picks| - 1];
      var j := picks[i - 1];
      assert picks == front + [j] && picks' == front' + [picks'[i - 1]];
      SameLastPick(s, front, j, front', picks'[i - 1]);
      PicksDiffer(s[i := s[j]][j := s[i]], front, front');
    }
  }

  lemma SamePosition<T(!new)>(s: seq<T>, j: nat, j': nat)
    requires Distinct(s) && j < |s| && j' < |s| && s[j] == s[j']
    ensures j == j'
  {
  }

  /** The ops to mail, or None where the slice expression ops[:n] would panic. */
  function TargetOps(ops: seq<string>, strategy: Strategy, n: int, picks: seq<nat>): Option<seq<string>> {
    if strategy == Broadcast then Some(ops)
    else if 0 <= n <= |ops| then Some(Shuffled(ops, picks)[..n])
    else None
  }

  /** getTargetOps shuffles the configured list itself, in place. */
  method GetTargetOps(ops: array<string>, strategy: Strategy, n: int, picks: seq<nat>)
    returns (targets: Option<seq<string>>)
    requires |picks| + 1 == ops.Length || ops.Length == 0 == |picks|
    modifies ops
    ensures targets == TargetOps(old(ops[..]), strategy, n, picks)
    ensures targets == if strategy == Broadcast then Some(ops[..])
                       else if 0 <= n <= ops.Length then Some(ops[..n]) else None
    ensures ops[..] == if strategy == Broadcast then old(ops[..]) else Shuffled(old(ops[..]), picks)
  {
    if strategy == Broadcast {
      return Some(ops[..]);
    }
    var i := ops.Length - 1;
    assert ops.Length > 0 ==> picks[..i] == picks;
    while i > 0
      invariant -1 <= i < ops.Length && (i >= 0 ==> i <= |picks|)
      invariant i >= 0 ==> Shuffled(ops[..], picks[..i]) == Shuffled(old(ops[..]), picks)
      invariant i < 0 ==> ops.Length == 0
    {
      var j := picks[i - 1] % (i + 1);
      ghost var before := ops[..];
      ops[i], ops[j] := ops[j], ops[i];
      assert ops[..] == before[i := before[j]][j := before[i]];
      assert picks[..i][..i - 1] == picks[..i - 1];
      i := i - 1;
    }
    assert ops.Length > 0 ==> picks[..0] == [];
    if 0 <= n <= ops.Length {
      return Some(ops[..n]);
    }
    return None;
  }

  /** Whatever the random numbers, everyone chosen is an op; and if the ops are distinct, so are the n chosen. */
  lemma TargetsAreOps(ops: seq<string>, strategy: Strategy, n: int, picks: seq<nat>)
    ensures var t := TargetOps(ops, strategy, n, picks);
            && (t.None? <==> strategy == Random && !(0 <= n <= |ops|))
            && (t.Some? ==> multiset(t.value) <= multiset(ops))
            && (t.Some? && Distinct(ops) ==> Distinct(t.value))
            && (t.Some? ==> |t.value| == if strategy == Broadcast then |ops| else n)
  {
    ShuffledPermutes(ops, picks);
    if strategy == Random && 0 <= n <= |ops| {
      var s := Shuffled(ops, picks);
      assert s == s[..n] + s[n..];
    }
  }

  // ----- mailing -----

  /** What became of the mail to one op: no link could be encoded, the mail failed, or it was sent. */
  datatype Mail = NoToken | NotSent | Sent

  /** The result of emailToOps: how many succeeded, whether an error is returned, and what is stored on the row
      (None: the row is not touched). */
  datatype Outcome = Outcome(successCount: nat, failed: bool, stored: Option<seq<string>>)

  /** The ops whose mail went out, in the order they were mailed. */
  function SentTo(ops: seq<string>, mails: seq<Mail>): seq<string>
    requires |mails| == |ops|
  {
    if ops == [] then []
    else SentTo(ops[..|ops| - 1], mails[..|ops| - 1]) + (if mails[|ops| - 1] == Sent then [ops[|ops| - 1]] else [])
  }

  ghost predicate Subsequence<T>(a: seq<T>, b: seq<T>)
    decreases |b|
  {
    if a == [] then true
    else if b == [] then false
    else if a[|a| - 1] == b[|b| - 1] && Subsequence(a[..|a| - 1], b[..|b| - 1]) then true
    else Subsequence(a, b[..|b| - 1])
  }

  lemma {:induction false} SentToIsSubsequence(ops: seq<string>, mails: seq<Mail>)
    requires |mails| == |ops|
    ensures Subsequence(SentTo(ops, mails), ops)
    ensures forall op :: op in SentTo(ops, mails) ==> op in ops
    ensures Distinct(ops) ==> Distinct(SentTo(ops, mails))
  {
    if ops != [] {
      var n := |ops| - 1;
      var rest := SentTo(ops[..n], mails[..n]);
      SentToIsSubsequence(ops[..n], mails[..n]);
      if mails[n] == Sent {
        assert (rest + [ops[n]])[..|rest|] == rest;
        assert Distinct(ops) ==> Distinct(ops[..n]) && ops[n] !in ops[..n];
      } else {
        assert SentTo(ops, mails) == rest;
      }
    }
  }

  /** Exactly the ops whose mail went out are in it, one for each such mail. */
  lemma {:induction false} SentToThose(ops: seq<string>, mails: seq<Mail>, went: set<int>)
    requires |mails| == |ops| && forall i :: i in went <==> 0 <= i < |ops| && mails[i] == Sent
    ensures |SentTo(ops, mails)| == |went|
    ensures forall op :: op in SentTo(ops, mails) <==> exists i :: i in went && ops[i] == op
  {
    if ops == [] {
      assert forall i :: i !in went;
      assert went == {};
    } else {
      var n := |ops| - 1;
      SentToThose(ops[..n], mails[..n], went - {n});
      if n in went {
        assert went == (went - {n}) + {n} && ops[n] in SentTo(ops, mails);
      } else {
        assert went - {n} == went;
      }
    }
  }

  /** The mailing loop: assignees and successCount grow together; a token failure returns at once, before
      anything is stored. */
  method EmailToOps(ops: seq<string>, mails: seq<Mail>, quorum: int) returns (o: Outcome)
    requires |mails| == |ops|
    ensures if NoToken in mails then o == Outcome(0, true, None)
            else
              var sent := SentTo(ops, mails);
              o == Outcome(|sent|, |sent| < quorum, if sent == [] then None else Some(sent))
  {
    var successCount := 0;
    var assignees: seq<string> := [];
    for i := 0 to |ops|
      invariant NoToken !in mails[..i]
      invariant assignees == SentTo(ops[..i], mails[..i]) && successCount == |assignees|
    {
      assert ops[..i + 1][..i] == ops[..i] && mails[..i + 1][..i] == mails[..i];
      if mails[i] == NoToken {
        return Outcome(0, true, None);
      }
      if mails[i] == Sent {
        assignees := assignees + [ops[i]];
        successCount := successCount + 1;
      }
    }
    assert ops[..|ops|] == ops && mails[..|ops|] == mails;
    return Outcome(successCount, successCount < quorum, if |assignees| > 0 then Some(assignees) else None);
  }
}
