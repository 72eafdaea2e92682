/** How many verdicts in a list are positive. */
module Counting {

  function CountTrue(verdicts: seq<bool>): nat {
    if |verdicts| == 0 then 0 else CountTrue(verdicts[..|verdicts| - 1]) + if verdicts[|verdicts| - 1] then 1 else 0
  }

  lemma CountNext(verdicts: seq<bool>, v: bool)
    ensures CountTrue(verdicts + [v]) == CountTrue(verdicts) + if v then 1 else 0
  {
    assert (verdicts + [v])[..|verdicts|] == verdicts;
  }

  lemma {:induction false} CountPositive(verdicts: seq<bool>, i: nat)
    requires i < |verdicts| && verdicts[i]
    ensures CountTrue(verdicts) >= 1
  {
    if i < |verdicts| - 1 { CountPositive(verdicts[..|verdicts| - 1], i); }
  }

  lemma {:induction false} CountTwo(verdicts: seq<bool>, i: nat, j: nat)
    requires i < j < |verdicts| && verdicts[i] && verdicts[j]
    ensures CountTrue(verdicts) >= 2
  {
    if j < |verdicts| - 1 { CountTwo(verdicts[..|verdicts| - 1], i, j); } else { CountPositive(verdicts[..j], i); }
  }

  /** Positive at most at one place. */
  lemma {:induction false} CountAtMost(verdicts: seq<bool>, i: nat)
    requires i < |verdicts| && forall j | 0 <= j < |verdicts| && verdicts[j] :: j == i
    ensures CountTrue(verdicts) == if verdicts[i] then 1 else 0
  {
    var n := |verdicts| - 1;
    if i < n { CountAtMost(verdicts[..n], i); } else { CountNone(verdicts[..n]); }
  }

  lemma {:induction false} CountNone(verdicts: seq<bool>)
    requires forall j | 0 <= j < |verdicts| :: !verdicts[j]
    ensures CountTrue(verdicts) == 0
  {
    if |verdicts| > 0 { CountNone(verdicts[..|verdicts| - 1]); }
  }

  ghost predicate AnyTrue(verdicts: seq<bool>) {
    exists i | 0 <= i < |verdicts| :: verdicts[i]
  }

  ghost predicate TwoTrue(verdicts: seq<bool>) {
    exists i, j | 0 <= i < j < |verdicts| :: verdicts[i] && verdicts[j]
  }

  /** One is counted exactly when one is there, and no two are. */
  lemma CountsOne(verdicts: seq<bool>)
    ensures CountTrue(verdicts) == 1 <==>
            AnyTrue(verdicts) && !TwoTrue(verdicts)
  {
    if i :| 0 <= i < |verdicts| && verdicts[i] {
      CountPositive(verdicts, i);
      if j, k :| 0 <= j < k < |verdicts| && verdicts[j] && verdicts[k] {
        CountTwo(verdicts, j, k);
      } else {
        CountAtMost(verdicts, i);
      }
    } else {
      CountNone(verdicts);
    }
  }
}
