/** The order lifecycle service: a table check behind a safety hold and a merchant fixture. */
module OrderLifecycle {
  import opened Wrappers
  import opened Journal
  import opened HandoffModel
  import opened UnitOfWork
  import Steps = HandoffSteps

  function Validate(current: OrderStatus, target: OrderStatus): Option<Error> {
    if target in LifecycleTransitions(current) then None else Some(InvalidOrderTransition(current, target))
  }

  method Transition(uow: Tables, oid: int, target: OrderStatus, merchantFixture: bool) returns (result: Result<(), Error>)
    modifies uow
    ensures Outcome(uow.Rows(), result) == Steps.EnterStatus(old(uow.Rows()), oid, target, merchantFixture)
  {
    if oid !in uow.orders { return Err(OrderNotFound); }
    var o := uow.orders[oid];
    if o.hold && BlockedByHold(target) { return Err(SafetyHoldActive); }
    if SetByMerchant(target) {
      if !merchantFixture || !o.synthetic { return Err(InvalidOrderTransition(o.status, target)); }
    }
    var invalid := Validate(o.status, target);
    if invalid.Some? { return Err(invalid.value); }
    uow.orders := uow.orders[oid := o.(status := target)];
    uow.AddOrderEvent(oid, Entered(o.status, target));
    result := Ok(());
  }
}
