/** The profile receipts of a release artifact. */
module Artifact {

  datatype Profile = Profile(role: string, model: string, effort: string)

  datatype Receipt = Receipt(role: string, requestedModel: string, observedModel: string, requestedEffort: string,
                             observedEffort: string, provider: string, source: string, threadHash: string,
                                 turnHash: string, usageRevision: nat, rerouted: bool)

  /** What one receipt has to be in itself. */
  predicate Genuine(r: Receipt) {
    && !r.rerouted && r.source == "app_server_thread_receipt" && r.provider == "openai"
    && r.requestedModel == r.observedModel && r.requestedEffort == r.observedEffort
    && r.threadHash != "" && r.turnHash != "" && r.usageRevision != 0
  }

  predicate Matches(r: Receipt, p: Profile) {
    r.role == p.role && r.requestedModel == p.model && r.requestedEffort == p.effort
  }

  predicate Distinct(required: seq<Profile>) {
    forall i, j | 0 <= i < j < |required| :: required[i].role != required[j].role
  }

  ghost predicate Wants(required: seq<Profile>, r: Receipt) {
    exists k | 0 <= k < |required| :: Matches(r, required[k])
  }

  ghost predicate Present(receipts: seq<Receipt>, role: string) {
    exists i | 0 <= i < |receipts| :: receipts[i].role == role
  }

  ghost predicate NoneTwice(receipts: seq<Receipt>) {
    forall i, j | 0 <= i < j < |receipts| :: receipts[i].role != receipts[j].role
  }

  /** Exactly one genuine receipt, for exactly the right model and effort, per required
      role, and nothing else. */
  ghost predicate OnePerRole(receipts: seq<Receipt>, required: seq<Profile>) {
    && (forall i | 0 <= i < |receipts| :: Genuine(receipts[i]) && Wants(required, receipts[i]))
    && (forall k | 0 <= k < |required| :: Present(receipts, required[k].role))
    && NoneTwice(receipts)
  }

  function Roles(receipts: seq<Receipt>): set<string> {
    set i | 0 <= i < |receipts| :: receipts[i].role
  }

  function Wanted(required: seq<Profile>): set<string> {
    set k | 0 <= k < |required| :: required[k].role
  }

  lemma {:induction false} RolesBound(receipts: seq<Receipt>)
    ensures |Roles(receipts)| <= |receipts|
    ensures |Roles(receipts)| == |receipts| <==> NoneTwice(receipts)
  {
    if |receipts| > 0 {
      var n := |receipts| - 1;
      var front := receipts[..n];
      RolesBound(front);
      assert forall i | 0 <= i < n :: front[i] == receipts[i];
      assert Roles(receipts) == Roles(front) + {receipts[n].role};
      if receipts[n].role in Roles(front) {
        var i :| 0 <= i < n && front[i].role == receipts[n].role;
        assert receipts[i].role == receipts[n].role;
      }
    }
  }

  lemma {:induction false} WantedBound(required: seq<Profile>)
    requires Distinct(required)
    ensures |Wanted(required)| == |required|
  {
    if |required| > 0 {
      var n := |required| - 1;
      WantedBound(required[..n]);
      assert Wanted(required) == Wanted(required[..n]) + {required[n].role};
    }
  }

  /** Pigeonhole: as many receipts as roles, none for another role, none missing. */
  lemma NoRoleTwice(receipts: seq<Receipt>, required: seq<Profile>)
    requires Distinct(required) && Roles(receipts) == Wanted(required)
    ensures |receipts| == |required| <==> NoneTwice(receipts)
  {
    RolesBound(receipts);
    WantedBound(required);
  }

  /** The search for the profile of a receipt's role. */
  method Find(r: Receipt, required: seq<Profile>) returns (wanted: int)
    ensures wanted == -1 ==> forall k | 0 <= k < |required| :: required[k].role != r.role
    ensures wanted != -1 ==> 0 <= wanted < |required| && required[wanted].role == r.role
  {
    for k := 0 to |required|
      invariant forall l | 0 <= l < k :: required[l].role != r.role
    {
      if required[k].role == r.role { return k; }
    }
    return -1;
  }

  // The checks, field by field.

  /** Not rerouted, seen at the app server and at the right provider, what was asked for is
      what was observed, and the thread, the turn and a usage are named. */
  ghost predicate Observed(r: Receipt) {
    && r == r.(rerouted := false, source := "app_server_thread_receipt", provider := "openai",
               observedModel := r.requestedModel, observedEffort := r.requestedEffort)
    && |r.threadHash| > 0 && |r.turnHash| > 0 && r.usageRevision > 0
  }

  ghost predicate Fills(r: Receipt, p: Profile) {
    p == Profile(r.role, r.requestedModel, r.requestedEffort)
  }

  ghost predicate Filled(r: Receipt, required: seq<Profile>) {
    exists p | p in required :: Fills(r, p)
  }

  ghost predicate Seen(role: string, receipts: seq<Receipt>) {
    exists r | r in receipts :: r.role == role
  }

  /** As many receipts as profiles, each observed and for some profile, and one for each. */
  ghost predicate Covered(receipts: seq<Receipt>, required: seq<Profile>) {
    && |receipts| == |required|
    && (forall r | r in receipts :: Observed(r) && Filled(r, required))
    && (forall p | p in required :: Seen(p.role, receipts))
  }

  lemma ReceiptIs(r: Receipt, required: seq<Profile>)
    ensures Genuine(r) <==> Observed(r)
    ensures Wants(required, r) <==> Filled(r, required)
  {
    if Wants(required, r) {
      var k :| 0 <= k < |required| && Matches(r, required[k]);
      assert required[k] in required && Fills(r, required[k]);
    }
    if Filled(r, required) {
      var p :| p in required && Fills(r, p);
      var k :| 0 <= k < |required| && required[k] == p;
      assert Matches(r, required[k]);
    }
  }

  lemma SeenIs(role: string, receipts: seq<Receipt>)
    ensures Seen(role, receipts) <==> Present(receipts, role)
  {
    if Seen(role, receipts) {
      var r :| r in receipts && r.role == role;
      var i :| 0 <= i < |receipts| && receipts[i] == r;
    }
    if Present(receipts, role) {
      var i :| 0 <= i < |receipts| && receipts[i].role == role;
      assert receipts[i] in receipts;
    }
  }

  lemma EachIs(receipts: seq<Receipt>, required: seq<Profile>)
    ensures (forall r | r in receipts :: Observed(r) && Filled(r, required)) <==>
            forall i | 0 <= i < |receipts| :: Genuine(receipts[i]) && Wants(required, receipts[i])
    ensures (forall p | p in required :: Seen(p.role, receipts)) <==>
            forall k | 0 <= k < |required| :: Present(receipts, required[k].role)
  {
    forall i | 0 <= i < |receipts|
      ensures receipts[i] in receipts
      ensures Genuine(receipts[i]) && Wants(required, receipts[i]) <==>
          Observed(receipts[i]) && Filled(receipts[i], required)
    {
      ReceiptIs(receipts[i], required);
    }
    forall k | 0 <= k < |required|
      ensures required[k] in required && (Present(receipts, required[k].role) <==> Seen(required[k].role, receipts))
    {
      SeenIs(required[k].role, receipts);
    }
  }

  lemma CoveredIs(receipts: seq<Receipt>, required: seq<Profile>)
    requires Distinct(required)
    ensures OnePerRole(receipts, required) <==> Covered(receipts, required)
  {
    EachIs(receipts, required);
    if (forall i | 0 <= i < |receipts| :: Genuine(receipts[i]) && Wants(required, receipts[i]))
       && (forall k | 0 <= k < |required| :: Present(receipts, required[k].role)) {
      SameRoles(receipts, required);
      NoRoleTwice(receipts, required);
    }
  }

  /** The loop over the receipts; `seen` are their roles. */
  method CheckEach(receipts: seq<Receipt>, required: seq<Profile>) returns (ok: bool, seen: set<string>)
    requires Distinct(required)
    ensures ok <==> forall i | 0 <= i < |receipts| :: Genuine(receipts[i]) && Wants(required, receipts[i])
    ensures ok ==> seen == Roles(receipts)
  {
    seen := {};
    for i := 0 to |receipts|
      invariant seen == Roles(receipts[..i])
      invariant forall j | 0 <= j < i :: Genuine(receipts[j]) && Wants(required, receipts[j])
    {
      var receipt := receipts[i];
      if !Genuine(receipt) { return false, seen; }
      seen := seen + {receipt.role};
      assert Roles(receipts[..i + 1]) == Roles(receipts[..i]) + {receipt.role};
      var wanted := Find(receipt, required);
      if wanted == -1 || receipt.requestedModel != required[wanted].model
          || receipt.requestedEffort != required[wanted].effort {
        return false, seen;
      }
      assert Matches(receipt, required[wanted]);
    }
    assert receipts[..|receipts|] == receipts;
    return true, seen;
  }

  /** The loop over the profiles. */
  method AllPresent(seen: set<string>, required: seq<Profile>) returns (ok: bool)
    ensures ok <==> forall k | 0 <= k < |required| :: required[k].role in seen
  {
    for k := 0 to |required|
      invariant forall l | 0 <= l < k :: required[l].role in seen
    {
      if required[k].role !in seen { return false; }
    }
    return true;
  }

  lemma PresentIs(receipts: seq<Receipt>, role: string)
    ensures role in Roles(receipts) <==> Present(receipts, role)
  {
  }

  /** Lengths, each receipt, each profile: together they are the whole condition. */
  lemma VerdictIs(receipts: seq<Receipt>, required: seq<Profile>)
    requires Distinct(required)
    ensures OnePerRole(receipts, required) <==>
            && |receipts| == |required|
            && (forall i | 0 <= i < |receipts| :: Genuine(receipts[i]) && Wants(required, receipts[i]))
            && forall k | 0 <= k < |required| :: required[k].role in Roles(receipts)
  {
    forall k | 0 <= k < |required|
        ensures required[k].role in Roles(receipts) <==> Present(receipts, required[k].role) {
      PresentIs(receipts, required[k].role);
    }
    if (forall i | 0 <= i < |receipts| :: Genuine(receipts[i]) && Wants(required, receipts[i]))
       && (forall k | 0 <= k < |required| :: Present(receipts, required[k].role)) {
      SameRoles(receipts, required);
      NoRoleTwice(receipts, required);
    }
  }

  /** The receipt checks of ValidateReleaseArtifact. */
  method ValidReceipts(receipts: seq<Receipt>, required: seq<Profile>) returns (ok: bool)
    requires Distinct(required)
    ensures ok <==> OnePerRole(receipts, required)
    ensures ok <==> Covered(receipts, required)
  {
    CoveredIs(receipts, required);
    VerdictIs(receipts, required);
    if |receipts| != |required| { return false; }
    var seen;
    ok, seen := CheckEach(receipts, required);
    if ok { ok := AllPresent(seen, required); }
  }

  lemma SameRoles(receipts: seq<Receipt>, required: seq<Profile>)
    requires forall i | 0 <= i < |receipts| :: Wants(required, receipts[i])
    requires forall k | 0 <= k < |required| :: Present(receipts, required[k].role)
    ensures Roles(receipts) == Wanted(required)
  {
    forall role | role in Roles(receipts) ensures role in Wanted(required) {
      var i :| 0 <= i < |receipts| && receipts[i].role == role;
      assert Wants(required, receipts[i]);
    }
    forall role | role in Wanted(required) ensures role in Roles(receipts) {
      var k :| 0 <= k < |required| && required[k].role == role;
      assert Present(receipts, required[k].role);
    }
  }

  /** The profiles every certificate needs. */
  const REQUIRED: seq<Profile> :=
    [Profile("planning", "gpt-5.6-sol", "medium"), Profile("implementation", "gpt-5.6-luna", "xhigh"),
     Profile("review", "gpt-5.6-sol", "medium"), Profile("audit", "gpt-6-astra", "medium")]

  function Witnessed(p: Profile): Receipt {
    Receipt(p.role, p.model, p.model, p.effort, p.effort, "openai", "app_server_thread_receipt", "a", "b", 1, false)
  }

  const GOOD: seq<Receipt> :=
    [Witnessed(REQUIRED[0]), Witnessed(REQUIRED[1]), Witnessed(REQUIRED[2]), Witnessed(REQUIRED[3])]

  lemma GoodFills(i: nat)
    requires i < 4
    ensures Observed(GOOD[i]) && Filled(GOOD[i], REQUIRED) && Seen(REQUIRED[i].role, GOOD)
  {
    assert REQUIRED[i] in REQUIRED && Fills(GOOD[i], REQUIRED[i]);
    assert GOOD[i] in GOOD && GOOD[i].role == REQUIRED[i].role;
  }

  lemma GoodCovers()
    ensures Covered(GOOD, REQUIRED)
  {
    forall r | r in GOOD ensures Observed(r) && Filled(r, REQUIRED) {
      var i :| 0 <= i < 4 && GOOD[i] == r;
      GoodFills(i);
    }
    forall p | p in REQUIRED ensures Seen(p.role, GOOD) {
      var k :| 0 <= k < 4 && REQUIRED[k] == p;
      GoodFills(k);
    }
  }

  /** Receipts that are accepted, and the same with one of them for another role's model. */
  method Example() returns (accepted: bool, refused: bool)
    ensures accepted && !refused
  {
    assert Distinct(REQUIRED);
    GoodCovers();
    accepted := ValidReceipts(GOOD, REQUIRED);
    var other := Witnessed(Profile("audit", "gpt-5.6-sol", "medium"));
    var bad := GOOD[3 := other];
    refused := ValidReceipts(bad, REQUIRED);
    assert bad[3] in bad && !Filled(other, REQUIRED);
  }
}
