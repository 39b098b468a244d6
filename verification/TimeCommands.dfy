/** What the commands of the control loop do to the launches and waits that follow them. */
module TimeCommands {
  import opened Wrappers
  import opened TimeGate
  import opened TimeAlone

  /** Boost and the unlimited flag let the next launch pass, and taking them back restores the state. */
  lemma FlagsDecide(s: State)
    ensures FastHow(Apply(s, Boost(true))) == Some(ByBoost)
    ensures !s.boost ==> FastHow(Apply(s, StoreUnlimited(true))) == Some(ByUnlimited)
    ensures Apply(Apply(s, Boost(true)), Boost(s.boost)) == s
    ensures Apply(Apply(s, StoreUnlimited(true)), StoreUnlimited(s.unlimited)) == s
  {
  }

  /** Otherwise the balance decides: set to v it lets a thread pass that is not urgent if and only if v is
      positive; an addition raises it, and the grants, by just that much. */
  lemma BalanceDecides(s: State, v: int)
    requires !s.boost && !s.unlimited
    ensures !s.urgent ==> (FastHow(Apply(s, StoreCredit(v))).Some? <==> v > 0)
    ensures Apply(Apply(s, StoreCredit(v)), StoreCredit(s.credit)) == s
    ensures var a := Apply(s, TimeAdd(v)); a.granted - s.granted == a.credit - s.credit == v
  {
  }

  /** And the priority with the limit: raised, a launch passes if and only if the balance is above minus the
      limit, or positive; not raised, if and only if it is positive. */
  lemma PriorityDecides(s: State, lim: nat)
    requires !s.boost && !s.unlimited
    ensures FastHow(Apply(s, PrioritySet(false))).Some? <==> s.credit > 0
    ensures FastHow(Apply(Apply(s, UrgentLimit(lim)), PrioritySet(true))).Some? <==> s.credit > 0 || s.credit + lim > 0
  {
  }

  /** A peer that declares itself idle can be ridden upon for 20 ms from then on, and one that declares itself
      busy cannot. */
  lemma PeerDecides(s: State, d: nat)
    ensures PeerIdles(Apply(Apply(Apply(s, PeerIdle(true)), PeerStamp(s.now)), Tick(d))) <==> s.wcOn && d < 20000
    ensures !PeerIdles(Apply(s, PeerIdle(false)))
  {
  }
}
