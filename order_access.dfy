/** Which orders the single-order lookup may return to a caller. */
module OrderAccess {
  import opened Entities

  /** The match filter the lookup builds: an administrator matches the requested id,
      anyone else matches every order they own, whatever id they asked for. */
  predicate MatchAsWritten(requested: Id, caller: Id, role: string, oid: Id, o: Order) {
    if role == Admin then oid == requested else o.user == caller
  }

  /** The filter the lookup is meant to apply: the requested order, and for anyone but an
      administrator only when they own it. */
  predicate MatchIntended(requested: Id, caller: Id, role: string, oid: Id, o: Order) {
    oid == requested && (role == Admin || o.user == caller)
  }

  /** For a caller who is not an administrator the requested id plays no part: any two
      requests match the same orders. */
  lemma AsWrittenIgnoresRequestedId(requested: Id, other: Id, caller: Id, role: string, oid: Id, o: Order)
    requires role != Admin
    ensures MatchAsWritten(requested, caller, role, oid, o) == MatchAsWritten(other, caller, role, oid, o)
  {
  }

  /** A customer asking for order 2 is matched with their own order 1 instead. */
  lemma AsWrittenAnswersWrongOrder()
    ensures var mine := Order(7, 40, 1, 100, "pending");
      MatchAsWritten(2, 7, Customer, 1, mine) && !MatchIntended(2, 7, Customer, 1, mine)
  {
  }

  /** The correction only narrows the filter as written: whatever the intended filter
      matches, the filter as written matches too. */
  lemma IntendedNarrowsAsWritten(requested: Id, caller: Id, role: string, oid: Id, o: Order)
    ensures MatchIntended(requested, caller, role, oid, o) ==> MatchAsWritten(requested, caller, role, oid, o)
  {
  }

  /** The intended filter matches at most one order: the requested one. */
  lemma IntendedMatchesAtMostOne(requested: Id, caller: Id, role: string, a: Id, oa: Order, b: Id, ob: Order)
    requires MatchIntended(requested, caller, role, a, oa) && MatchIntended(requested, caller, role, b, ob)
    ensures a == b
  {
  }

  /** For an administrator the two filters agree. */
  lemma IntendedAgreesForAdmins(requested: Id, caller: Id, oid: Id, o: Order)
    ensures MatchIntended(requested, caller, Admin, oid, o) == MatchAsWritten(requested, caller, Admin, oid, o)
  {
  }
}
