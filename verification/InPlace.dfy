/** Rewriting a buffer one step at a time, where each step is read from bytes that the
    steps before it may already have changed. */
module InPlace {
  import opened Options

  type Byte = b: int | 0 <= b < 256

  function Zeroed(s: seq<Byte>, lo: nat, hi: nat): (r: seq<Byte>)
    requires lo <= hi <= |s|
    ensures |r| == |s|
    decreases hi
  {
    if lo == hi then s else Zeroed(s, lo, hi - 1)[hi - 1 := 0]
  }

  lemma {:induction false} ZeroedAt(s: seq<Byte>, lo: nat, hi: nat)
    requires lo <= hi <= |s|
    ensures forall i | 0 <= i < |s| :: Zeroed(s, lo, hi)[i] == if lo <= i < hi then 0 else s[i]
  {
    if lo < hi { ZeroedAt(s, lo, hi - 1); }
  }

  /** A step advances by `size` and leaves `bytes` behind. */
  datatype Stepped = Stepped(size: nat, bytes: seq<Byte>)

  /** `n` steps from `offset`; the first step that fails rejects the buffer. */
  function PassFrom(step: (seq<Byte>, nat) -> Option<Stepped>, s: seq<Byte>, n: nat, offset: nat): Option<seq<Byte>>
    decreases n
  {
    if n == 0 then Some(s)
    else
      var next := step(s, offset);
      if next.None? then None else PassFrom(step, next.value.bytes, n - 1, offset + next.value.size)
  }

  /** What each step of the untouched buffer clears; `None` for one that fails. */
  type Ranges = seq<Option<(nat, nat)>>

  ghost predicate InBounds(ranges: Ranges, length: nat) {
    forall k | 0 <= k < |ranges| && ranges[k].Some? :: ranges[k].value.0 <= ranges[k].value.1 <= length
  }

  ghost predicate Covers(range: Option<(nat, nat)>, i: int) {
    range.Some? && range.value.0 <= i < range.value.1
  }

  ghost predicate Masked(ranges: Ranges, i: int) {
    exists k | 0 <= k < |ranges| :: Covers(ranges[k], i)
  }

  /** Same length, and the same bytes wherever the mask is not. */
  ghost predicate SameUnmasked(s: seq<Byte>, t: seq<Byte>, ranges: Ranges) {
    |s| == |t| && forall i | 0 <= i < |s| && !Masked(ranges, i) :: s[i] == t[i]
  }

  /** A step that clears `range`, or fails. */
  function Cleared(t: seq<Byte>, range: Option<(nat, nat)>, size: nat): Option<Stepped>
    requires range.Some? ==> range.value.0 <= range.value.1 <= |t|
  {
    if range.None? then None else Some(Stepped(size, Zeroed(t, range.value.0, range.value.1)))
  }

  /** Step `k` reads and clears in `t` what the offsets and the ranges say. */
  ghost predicate StepAs(step: (seq<Byte>, nat) -> Option<Stepped>, t: seq<Byte>, at: seq<nat>, ranges: Ranges, k: nat)
    requires |at| == |ranges| + 1 && k < |ranges| && InBounds(ranges, |t|)
  {
    at[k] <= at[k + 1] && step(t, at[k]) == Cleared(t, ranges[k], at[k + 1] - at[k])
  }

  /** Whatever the mask hides, each step reads and does the same. `at` are the offsets. */
  ghost predicate Stable(step: (seq<Byte>, nat) -> Option<Stepped>, s: seq<Byte>, at: seq<nat>, ranges: Ranges) {
    && |at| == |ranges| + 1 && InBounds(ranges, |s|)
    && forall k, t | 0 <= k < |ranges| && SameUnmasked(s, t, ranges) :: StepAs(step, t, at, ranges, k)
  }

  /** After the first `k` steps exactly their part of the mask is cleared. */
  ghost predicate ClearedUpTo(s: seq<Byte>, cur: seq<Byte>, ranges: Ranges, k: nat)
    requires k <= |ranges|
  {
    && |cur| == |s|
    && forall i | 0 <= i < |s| :: cur[i] == if Masked(ranges[..k], i) then 0 else s[i]
  }

  lemma MaskedPrefix(ranges: Ranges, k: nat, i: int)
    requires k < |ranges|
    ensures Masked(ranges[..k + 1], i) <==> Masked(ranges[..k], i) || Covers(ranges[k], i)
    ensures Masked(ranges[..k], i) ==> Masked(ranges, i)
  {
    if Masked(ranges[..k], i) {
      var l :| 0 <= l < k && Covers(ranges[..k][l], i);
      assert Covers(ranges[..k + 1][l], i) && Covers(ranges[l], i);
    }
    if Covers(ranges[k], i) { assert Covers(ranges[..k + 1][k], i); }
    if Masked(ranges[..k + 1], i) {
      var l :| 0 <= l < k + 1 && Covers(ranges[..k + 1][l], i);
      if l < k { assert Covers(ranges[..k][l], i); }
    }
  }

  lemma ClearedSame(s: seq<Byte>, cur: seq<Byte>, ranges: Ranges, k: nat)
    requires k <= |ranges| && ClearedUpTo(s, cur, ranges, k)
    ensures SameUnmasked(s, cur, ranges)
  {
    forall i | 0 <= i < |s| && !Masked(ranges, i) ensures cur[i] == s[i] {
      if k < |ranges| { MaskedPrefix(ranges, k, i); } else { assert ranges[..k] == ranges; }
    }
  }

  lemma ClearedNext(s: seq<Byte>, cur: seq<Byte>, ranges: Ranges, k: nat)
    requires InBounds(ranges, |s|) && k < |ranges| && ranges[k].Some? && ClearedUpTo(s, cur, ranges, k)
    ensures ClearedUpTo(s, Zeroed(cur, ranges[k].value.0, ranges[k].value.1), ranges, k + 1)
  {
    var lo, hi := ranges[k].value.0, ranges[k].value.1;
    ZeroedAt(cur, lo, hi);
    forall i | 0 <= i < |s| ensures Zeroed(cur, lo, hi)[i] == if Masked(ranges[..k + 1], i) then 0 else s[i] {
      MaskedPrefix(ranges, k, i);
    }
  }

  ghost predicate AllGood(ranges: Ranges, k: nat) {
    forall l | k <= l < |ranges| :: ranges[l].Some?
  }

  /** The pass over half-cleared bytes does what reading everything first would do. */
  lemma {:induction false} PassClearsMask(step: (seq<Byte>, nat) -> Option<Stepped>, s: seq<Byte>, cur: seq<Byte>,
                                          at: seq<nat>, ranges: Ranges, k: nat)
    requires Stable(step, s, at, ranges) && k <= |ranges| && ClearedUpTo(s, cur, ranges, k)
    ensures var r := PassFrom(step, cur, |ranges| - k, at[k]);
            && (r.Some? <==> AllGood(ranges, k))
            && (r.Some? ==> ClearedUpTo(s, r.value, ranges, |ranges|))
    decreases |ranges| - k
  {
    if k < |ranges| {
      ClearedSame(s, cur, ranges, k);
      assert StepAs(step, cur, at, ranges, k);
      if ranges[k].Some? {
        ClearedNext(s, cur, ranges, k);
        PassClearsMask(step, s, Zeroed(cur, ranges[k].value.0, ranges[k].value.1), at, ranges, k + 1);
      }
    }
  }

  /** The canonical form of a stable, accepted buffer: the mask is cleared, all else is
      as it was. */
  lemma PassIsMask(step: (seq<Byte>, nat) -> Option<Stepped>, s: seq<Byte>, at: seq<nat>, ranges: Ranges)
    requires Stable(step, s, at, ranges)
    ensures var r := PassFrom(step, s, |ranges|, at[0]);
            && (r.Some? <==> AllGood(ranges, 0))
            && (r.Some? ==> |r.value| == |s| && forall i | 0 <= i < |s| ::
                r.value[i] == if Masked(ranges, i) then 0 else s[i])
  {
    assert ClearedUpTo(s, s, ranges, 0);
    PassClearsMask(step, s, s, at, ranges, 0);
    assert ranges[..|ranges|] == ranges;
  }
}
