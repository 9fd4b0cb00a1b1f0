/**
  The dashboard statistics (components/DashboardPage.tsx): total revenue,
  active and total users, and the number of subscribers per plan. The two
  `reduce` calls are left-to-right loops here, proved equal to recursive
  reference definitions.
 */
module Dashboard {
  import opened Records
  import opened Seqs

  /** The sum of all amounts paid. */
  function Revenue(payments: seq<Payment>): int {
    if |payments| == 0 then 0 else payments[0].totalAmountPaid + Revenue(payments[1..])
  }

  lemma {:induction false} RevenueAppend(a: seq<Payment>, b: seq<Payment>)
    ensures Revenue(a + b) == Revenue(a) + Revenue(b)
  {
    if |a| == 0 {
      assert a + b == b;
    } else {
      assert (a + b)[1..] == a[1..] + b;
      RevenueAppend(a[1..], b);
    }
  }

  /** `MOCK_PAYMENTS.reduce((sum, payment) => sum + payment.totalAmountPaid, 0)`. */
  method TotalRevenue(payments: seq<Payment>) returns (total: int)
    ensures total == Revenue(payments)
    ensures |payments| == 0 ==> total == 0
  {
    total := 0;
    var i := 0;
    while i < |payments|
      invariant 0 <= i <= |payments|
      invariant total == Revenue(payments[..i])
    {
      assert payments[..i + 1] == payments[..i] + [payments[i]];
      RevenueAppend(payments[..i], [payments[i]]);
      total := total + payments[i].totalAmountPaid;
      i := i + 1;
    }
    assert payments[..i] == payments;
  }

  /** Non-negative amounts give non-negative revenue. */
  lemma {:induction false} RevenueNonNegative(payments: seq<Payment>)
    requires forall i :: 0 <= i < |payments| ==> payments[i].totalAmountPaid >= 0
    ensures Revenue(payments) >= 0
  {
    if |payments| > 0 {
      RevenueNonNegative(payments[1..]);
    }
  }

  /** Payments of 10, 20 and 30 add up to 60. */
  lemma RevenueExample(a: Payment, b: Payment, c: Payment)
    requires a.totalAmountPaid == 10 && b.totalAmountPaid == 20 && c.totalAmountPaid == 30
    ensures Revenue([a, b, c]) == 60
  {
    assert [a, b, c][1..] == [b, c];
    assert [b, c][1..] == [c];
    assert [c][1..] == [];
    assert Revenue([c]) == 30;
  }

  /** The callback `sub => sub.isActive`. */
  predicate IsActive(s: Subscription) {
    s.isActive
  }

  /** The number of active subscriptions, counted one record at a time. */
  function CountActive(subs: seq<Subscription>): nat {
    if |subs| == 0 then 0
    else (if subs[0].isActive then 1 else 0) + CountActive(subs[1..])
  }

  /** Filtering on `isActive` keeps exactly as many records as are active. */
  lemma {:induction false} ActiveFilterLengthIsCount(subs: seq<Subscription>)
    ensures |Filter(subs, IsActive)| == CountActive(subs)
  {
    if |subs| > 0 {
      ActiveFilterLengthIsCount(subs[1..]);
    }
  }

  /** `MOCK_SUBSCRIPTIONS.filter(sub => sub.isActive).length`. */
  function ActiveUsers(subs: seq<Subscription>): (n: nat)
    ensures n == CountActive(subs)
    ensures n <= |subs|
    ensures n == |subs| <==> forall i :: 0 <= i < |subs| ==> subs[i].isActive
    ensures n == 0 <==> forall i :: 0 <= i < |subs| ==> !subs[i].isActive
  {
    ActiveFilterLengthIsCount(subs);
    FilterKeepsLengthIffAllKept(subs, IsActive);
    FilterEmptyIffNoneKept(subs, IsActive);
    |Filter(subs, IsActive)|
  }

  /** Three subscriptions of which two are active give two active users out of three. */
  lemma ActiveUsersExample(a: Subscription, b: Subscription, c: Subscription)
    requires a.isActive && b.isActive && !c.isActive
    ensures ActiveUsers([a, b, c]) == 2
  {
    var active := IsActive;
    assert [a, b, c][1..] == [b, c];
    assert [b, c][1..] == [c];
    assert [c][1..] == [];
    assert Filter([c], active) == [];
    assert Filter([b, c], active) == [b];
    assert Filter([a, b, c], active) == [a, b];
  }

  /** The number of subscriptions on plan `p`. */
  function CountPlan(subs: seq<Subscription>, p: Plan): nat {
    if |subs| == 0 then 0
    else (if subs[0].subscriptionPlan == p then 1 else 0) + CountPlan(subs[1..], p)
  }

  lemma {:induction false} CountPlanAppend(a: seq<Subscription>, b: seq<Subscription>, p: Plan)
    ensures CountPlan(a + b, p) == CountPlan(a, p) + CountPlan(b, p)
  {
    if |a| == 0 {
      assert a + b == b;
    } else {
      assert (a + b)[1..] == a[1..] + b;
      CountPlanAppend(a[1..], b, p);
    }
  }

  /** Every subscription is on exactly one of the three plans. */
  lemma {:induction false} CountPlansSum(subs: seq<Subscription>)
    ensures CountPlan(subs, Basic) + CountPlan(subs, Pro) + CountPlan(subs, Enterprise) == |subs|
  {
    if |subs| > 0 {
      CountPlansSum(subs[1..]);
    }
  }

  /** `acc[name] || 0`: a missing entry reads as zero. */
  function CountOrZero(counts: map<string, int>, name: string): int {
    if name in counts then counts[name] else 0
  }

  /** The `planCounts` reduce: one increment of the entry named after each subscription's plan. */
  method PlanCounts(subs: seq<Subscription>) returns (counts: map<string, int>)
    ensures counts.Keys <= PlanNames
    ensures forall p :: PlanName(p) in counts <==> CountPlan(subs, p) > 0
    ensures forall p :: PlanName(p) in counts ==> counts[PlanName(p)] == CountPlan(subs, p)
    ensures forall name :: name in counts ==> counts[name] >= 1
    ensures CountOrZero(counts, "Basic") + CountOrZero(counts, "Pro") + CountOrZero(counts, "Enterprise") == |subs|
  {
    counts := map[];
    var i := 0;
    while i < |subs|
      invariant 0 <= i <= |subs|
      invariant counts.Keys <= PlanNames
      invariant forall p :: PlanName(p) in counts <==> CountPlan(subs[..i], p) > 0
      invariant forall p :: PlanName(p) in counts ==> counts[PlanName(p)] == CountPlan(subs[..i], p)
    {
      var plan := subs[i].subscriptionPlan;
      var name := PlanName(plan);
      assert subs[..i + 1] == subs[..i] + [subs[i]];
      assert [subs[i]][1..] == [];
      forall p
        ensures CountPlan(subs[..i + 1], p) == CountPlan(subs[..i], p) + (if plan == p then 1 else 0)
        ensures PlanName(p) == name <==> p == plan
      {
        CountPlanAppend(subs[..i], [subs[i]], p);
        PlanNameInjective(p, plan);
      }
      counts := counts[name := CountOrZero(counts, name) + 1];
      i := i + 1;
    }
    assert subs[..i] == subs;
    CountPlansSum(subs);
    assert CountOrZero(counts, "Basic") == CountPlan(subs, Basic);
    assert CountOrZero(counts, "Pro") == CountPlan(subs, Pro);
    assert CountOrZero(counts, "Enterprise") == CountPlan(subs, Enterprise);
    forall name | name in counts
      ensures counts[name] >= 1
    {
      var p := if name == "Basic" then Basic else if name == "Pro" then Pro else Enterprise;
      assert PlanName(p) == name;
    }
  }

  datatype Stats = Stats(totalRevenue: int, activeUsers: nat, totalUsers: nat, planCounts: map<string, int>)

  /** The `stats` memo. */
  method ComputeStats(payments: seq<Payment>, subs: seq<Subscription>) returns (stats: Stats)
    ensures stats.totalRevenue == Revenue(payments)
    ensures stats.totalUsers == |subs|
    ensures stats.activeUsers <= stats.totalUsers
    ensures stats.activeUsers == |Filter(subs, IsActive)|
    ensures stats.activeUsers == CountActive(subs)
    ensures stats.planCounts.Keys <= PlanNames
    ensures forall p :: PlanName(p) in stats.planCounts <==> CountPlan(subs, p) > 0
    ensures forall p :: PlanName(p) in stats.planCounts ==> stats.planCounts[PlanName(p)] == CountPlan(subs, p)
    ensures forall name :: name in stats.planCounts ==> stats.planCounts[name] >= 1
    ensures CountOrZero(stats.planCounts, "Basic") + CountOrZero(stats.planCounts, "Pro")
            + CountOrZero(stats.planCounts, "Enterprise") == stats.totalUsers
  {
    var totalRevenue := TotalRevenue(payments);
    var activeUsers := ActiveUsers(subs);
    var totalUsers := |subs|;
    var planCounts := PlanCounts(subs);
    stats := Stats(totalRevenue, activeUsers, totalUsers, planCounts);
  }
}
