/**
  Per-leg stake limits: the limits a bookmaker states and the same limits moved
  inwards onto the leg's stake grid.
 */
module StakeConstraints {
  import opened Wrappers
  import opened Reals
  import opened Domain

  /** Stake limits of one quote as a bookmaker states them. */
  datatype StakeConstraint = StakeConstraint(
    quoteId: Id,
    minimum: NonNegative,
    maximum: Option<Positive>,
    increment: Positive)

  /** The same limits moved inwards onto the increment grid. */
  datatype EffectiveConstraint = EffectiveConstraint(
    minimum: real,
    maximum: Option<real>,
    increment: Positive)
  {
    ghost predicate Valid() {
      && increment <= minimum
      && OnGrid(minimum, increment)
      && (maximum.Some? ==> minimum <= maximum.value && OnGrid(maximum.value, increment))
    }

    /** A stake this leg accepts. */
    ghost predicate Accepts(amount: real) {
      && OnGrid(amount, increment)
      && minimum <= amount
      && (maximum.Some? ==> amount <= maximum.value)
    }
  }

  datatype ConstraintError = OutsideOpportunity | DuplicateConstraint | IncrementOffQuantum

  function DefaultConstraint(quoteId: Id, quantum: Positive): StakeConstraint {
    StakeConstraint(quoteId, 0.0, None, quantum)
  }

  /** The constraint stated for a quote, or an unlimited one on the currency quantum. */
  function StatedFor(constraints: seq<StakeConstraint>, quoteId: Id, quantum: Positive): StakeConstraint {
    if |constraints| == 0 then DefaultConstraint(quoteId, quantum)
    else if constraints[|constraints| - 1].quoteId == quoteId then constraints[|constraints| - 1]
    else StatedFor(constraints[..|constraints| - 1], quoteId, quantum)
  }

  /** The limits a bookmaker states, read as a condition on one stake. */
  ghost predicate Admissible(constraint: StakeConstraint, amount: real) {
    && amount > 0.0
    && OnGrid(amount, constraint.increment)
    && constraint.minimum <= amount
    && (constraint.maximum.Some? ==> amount <= constraint.maximum.value)
  }

  /** `effective` accepts exactly the admissible stakes of `constraint`. */
  ghost predicate Represents(effective: EffectiveConstraint, constraint: StakeConstraint) {
    && effective.Valid()
    && effective.increment == constraint.increment
    && forall amount :: effective.Accepts(amount) <==> Admissible(constraint, amount)
  }

  lemma AdmissibleAboveMinimum(constraint: StakeConstraint, amount: real)
    requires OnGrid(amount, constraint.increment)
    ensures amount > 0.0 && constraint.minimum <= amount <==>
            Max(constraint.increment, CeilToGrid(constraint.minimum, constraint.increment)) <= amount
  {
    var step := constraint.increment;
    CeilIsLeast(constraint.minimum, step, amount);
    assert OnGrid(0.0, step) by {
      assert 0.0 == GridPoint(0, step);
    }
    if amount > 0.0 {
      GridGap(0.0, amount, step);
    }
  }

  lemma EffectiveRepresents(constraint: StakeConstraint, effective: EffectiveConstraint)
    requires effective.increment == constraint.increment
    requires effective.minimum ==
             Max(constraint.increment, CeilToGrid(constraint.minimum, constraint.increment))
    requires effective.maximum.Some? <==> constraint.maximum.Some?
    requires effective.maximum.Some? ==>
               && effective.maximum.value == FloorToGrid(constraint.maximum.value, constraint.increment)
               && effective.minimum <= effective.maximum.value
    ensures Represents(effective, constraint)
  {
    StepOnGrid(constraint.increment);
    forall amount
      ensures effective.Accepts(amount) <==> Admissible(constraint, amount)
    {
      if OnGrid(amount, constraint.increment) {
        AdmissibleAboveMinimum(constraint, amount);
        if constraint.maximum.Some? {
          FloorIsGreatest(constraint.maximum.value, constraint.increment, amount);
        }
      }
    }
  }

  lemma NothingAdmissible(constraint: StakeConstraint)
    requires constraint.maximum.Some?
    requires FloorToGrid(constraint.maximum.value, constraint.increment)
             < Max(constraint.increment, CeilToGrid(constraint.minimum, constraint.increment))
    ensures forall amount :: !Admissible(constraint, amount)
  {
    forall amount
      ensures !Admissible(constraint, amount)
    {
      if OnGrid(amount, constraint.increment) {
        AdmissibleAboveMinimum(constraint, amount);
        FloorIsGreatest(constraint.maximum.value, constraint.increment, amount);
      }
    }
  }

  predicate OnQuantum(increment: Positive, quantum: Positive) {
    FloorToGrid(increment, quantum) == increment
  }

  function StatedIds(constraints: seq<StakeConstraint>): seq<Id> {
    seq(|constraints|, i requires 0 <= i < |constraints| => constraints[i].quoteId)
  }

  function StatedForAll(quotes: seq<OddsQuote>, constraints: seq<StakeConstraint>, quantum: Positive)
    : seq<StakeConstraint>
  {
    seq(|quotes|, i requires 0 <= i < |quotes| => StatedFor(constraints, quotes[i].id, quantum))
  }

  /** Some grid stake of this leg respects its limits. */
  predicate HasRoom(constraint: StakeConstraint) {
    constraint.maximum.None? ||
    Max(constraint.increment, CeilToGrid(constraint.minimum, constraint.increment))
    <= FloorToGrid(constraint.maximum.value, constraint.increment)
  }

  /** The legs before `k` pass both checks of the constraint loop. */
  predicate ChecksPassBelow(stated: seq<StakeConstraint>, quantum: Positive, k: nat)
    requires k <= |stated|
  {
    forall j :: 0 <= j < k ==> OnQuantum(stated[j].increment, quantum) && HasRoom(stated[j])
  }

  /** The first constraint that cannot be accepted fails for reason `error`. */
  ghost predicate FirstLookupFault(stated: seq<Id>, quoteIds: set<Id>, error: ConstraintError) {
    exists k :: 0 <= k < |stated| && LookupFaultAt(stated, quoteIds, k, error)
  }

  /** The constraints before `k` are accepted and the one at `k` is not, for reason `error`. */
  ghost predicate LookupFaultAt(stated: seq<Id>, quoteIds: set<Id>, k: nat, error: ConstraintError)
    requires k < |stated|
  {
    && Members(stated[..k]) <= quoteIds && Distinct(stated[..k])
    && if stated[k] !in quoteIds then error == OutsideOpportunity
       else stated[k] in stated[..k] && error == DuplicateConstraint
  }

  /** Every stated constraint names an own quote, and none names the same quote twice. */
  ghost predicate LookupsPass(stated: seq<Id>, quoteIds: set<Id>) {
    Members(stated) <= quoteIds && Distinct(stated)
  }

  /** Some leg's increment is off the quantum and no leg before it ends the loop. */
  predicate OffQuantumFirst(stated: seq<StakeConstraint>, quantum: Positive) {
    exists k :: 0 <= k < |stated| && ChecksPassBelow(stated, quantum, k) && !OnQuantum(stated[k].increment, quantum)
  }

  /** The constraints of these legs, in this order, cannot be used for reason `error`. */
  ghost predicate ConstraintsFail(quotes: seq<OddsQuote>, constraints: seq<StakeConstraint>, quantum: Positive,
                                  error: ConstraintError)
  {
    if error == IncrementOffQuantum then
      && LookupsPass(StatedIds(constraints), Members(Ids(quotes)))
      && OffQuantumFirst(StatedForAll(quotes, constraints, quantum), quantum)
    else FirstLookupFault(StatedIds(constraints), Members(Ids(quotes)), error)
  }

  lemma LookupFaultUnique(stated: seq<Id>, quoteIds: set<Id>, a: ConstraintError, b: ConstraintError)
    requires FirstLookupFault(stated, quoteIds, a)
    ensures !LookupsPass(stated, quoteIds) && a != IncrementOffQuantum
    ensures FirstLookupFault(stated, quoteIds, b) ==> a == b
  {
    var k :| 0 <= k < |stated| && LookupFaultAt(stated, quoteIds, k, a);
    PrefixFails(stated, quoteIds, k, |stated|);
    assert stated[..|stated|] == stated;
    if FirstLookupFault(stated, quoteIds, b) {
      var j :| 0 <= j < |stated| && LookupFaultAt(stated, quoteIds, j, b);
      if k < j {
        PrefixFails(stated, quoteIds, k, j);
      } else if j < k {
        PrefixFails(stated, quoteIds, j, k);
      }
    }
  }

  /** A prefix that holds an unacceptable constraint does not pass. */
  lemma PrefixFails(stated: seq<Id>, quoteIds: set<Id>, k: nat, n: nat)
    requires k < n <= |stated|
    requires stated[k] !in quoteIds || stated[k] in stated[..k]
    ensures !LookupsPass(stated[..n], quoteIds)
  {
    var prefix := stated[..n];
    assert prefix[k] == stated[k] && prefix[k] in prefix;
    if stated[k] in stated[..k] {
      var i :| 0 <= i < k && stated[..k][i] == stated[k];
      assert prefix[i] == prefix[k];
    }
  }

  method LookUpConstraints(quotes: seq<OddsQuote>, constraints: seq<StakeConstraint>, ghost quantum: Positive)
    returns (r: Result<map<Id, StakeConstraint>, ConstraintError>)
    ensures r.Ok? <==> Members(StatedIds(constraints)) <= Members(Ids(quotes)) && Distinct(StatedIds(constraints))
    ensures r.Ok? ==> forall id :: StatedFor(constraints, id, quantum)
                                   == if id in r.value then r.value[id] else DefaultConstraint(id, quantum)
    ensures r.Err? ==> FirstLookupFault(StatedIds(constraints), Members(Ids(quotes)), r.error)
  {
    var provided: map<Id, StakeConstraint> := map[];
    var quoteIds := Members(Ids(quotes));
    ghost var stated := StatedIds(constraints);
    for k := 0 to |constraints|
      invariant provided.Keys == Members(stated[..k]) <= quoteIds
      invariant Distinct(stated[..k])
      invariant forall id :: StatedFor(constraints[..k], id, quantum)
                             == if id in provided then provided[id] else DefaultConstraint(id, quantum)
    {
      var constraint := constraints[k];
      assert stated[k] == constraint.quoteId && stated[k] in stated;
      assert stated[..k + 1] == stated[..k] + [stated[k]];
      assert constraints[..k + 1][..k] == constraints[..k];
      if constraint.quoteId !in quoteIds {
        assert LookupFaultAt(stated, quoteIds, k, OutsideOpportunity);
        return Err(OutsideOpportunity);
      }
      if constraint.quoteId in provided {
        assert LookupFaultAt(stated, quoteIds, k, DuplicateConstraint);
        return Err(DuplicateConstraint);
      }
      provided := provided[constraint.quoteId := constraint];
    }
    assert stated[..|constraints|] == stated && constraints[..|constraints|] == constraints;
    return Ok(provided);
  }

  method EffectiveConstraints(quotes: seq<OddsQuote>, constraints: seq<StakeConstraint>, quantum: Positive)
    returns (r: Outcome<seq<EffectiveConstraint>, ConstraintError>)
    ensures var stated := StatedForAll(quotes, constraints, quantum);
      && (r.Found? ==>
            && ChecksPassBelow(stated, quantum, |stated|)
            && |r.value| == |quotes|
            && forall i :: 0 <= i < |quotes| ==> Represents(r.value[i], stated[i]))
      && (r.Nothing? ==> exists k ::
            && 0 <= k < |stated| && ChecksPassBelow(stated, quantum, k)
            && OnQuantum(stated[k].increment, quantum) && !HasRoom(stated[k]))
      && (r == Raised(IncrementOffQuantum) ==> exists k ::
            && 0 <= k < |stated| && ChecksPassBelow(stated, quantum, k)
            && !OnQuantum(stated[k].increment, quantum))
    ensures r.Raised? && r.error != IncrementOffQuantum ==>
              FirstLookupFault(StatedIds(constraints), Members(Ids(quotes)), r.error)
    ensures r.Raised? && r.error != IncrementOffQuantum <==>
            !(Members(StatedIds(constraints)) <= Members(Ids(quotes)) && Distinct(StatedIds(constraints)))
    ensures forall e :: r == Raised(e) <==> ConstraintsFail(quotes, constraints, quantum, e)
  {
    var lookup := LookUpConstraints(quotes, constraints, quantum);
    if lookup.Err? {
      forall e
        ensures ConstraintsFail(quotes, constraints, quantum, e) <==> e == lookup.error
      {
        LookupFaultUnique(StatedIds(constraints), Members(Ids(quotes)), lookup.error, e);
      }
      return Raised(lookup.error);
    }
    forall e | ConstraintsFail(quotes, constraints, quantum, e)
      ensures e == IncrementOffQuantum
    {
      if e != IncrementOffQuantum {
        LookupFaultUnique(StatedIds(constraints), Members(Ids(quotes)), e, e);
      }
    }
    ghost var stated := StatedForAll(quotes, constraints, quantum);
    var effective: seq<EffectiveConstraint> := [];
    for k := 0 to |quotes|
      invariant |effective| == k && ChecksPassBelow(stated, quantum, k)
      invariant forall i :: 0 <= i < k ==> Represents(effective[i], stated[i])
    {
      var constraint := if quotes[k].id in lookup.value then lookup.value[quotes[k].id]
                        else DefaultConstraint(quotes[k].id, quantum);
      assert constraint == stated[k];
      var increment := constraint.increment;
      if FloorToGrid(increment, quantum) != increment {
        return Raised(IncrementOffQuantum);
      }
      var minimum := Max(increment, CeilToGrid(constraint.minimum, increment));
      var maximum := None;
      if constraint.maximum.Some? {
        maximum := Some(FloorToGrid(constraint.maximum.value, increment));
        if maximum.value < minimum {
          return Nothing;
        }
      }
      var bounds := EffectiveConstraint(minimum, maximum, increment);
      EffectiveRepresents(constraint, bounds);
      effective := effective + [bounds];
    }
    return Found(effective);
  }
}
