/** The two record kinds the console displays (types.ts). */
module Records {

  /** The closed set of subscription tiers. */
  datatype Plan = Basic | Pro | Enterprise

  /** The string literal a plan is stored as. */
  function PlanName(p: Plan): string {
    match p
    case Basic => "Basic"
    case Pro => "Pro"
    case Enterprise => "Enterprise"
  }

  const PlanNames: set<string> := {"Basic", "Pro", "Enterprise"}

  /** Distinct plans have distinct names, and the names are exactly `PlanNames`. */
  lemma PlanNameInjective(p: Plan, q: Plan)
    ensures PlanName(p) == PlanName(q) <==> p == q
    ensures PlanName(p) in PlanNames
  {
  }

  /** Dates are the raw strings of the records; nothing here parses them. */
  datatype Subscription = Subscription(
    id: int,
    username: string,
    companyName: string,
    registrationDate: string,
    subscriptionPlan: Plan,
    subscriptionStartDate: string,
    subscriptionEndDate: string,
    totalUploads: int,
    uploadsUsed: int,
    isActive: bool)

  /** `totalAmountPaid` is a whole number of cents. */
  datatype Payment = Payment(
    id: int,
    username: string,
    companyName: string,
    totalAmountPaid: int)
}
