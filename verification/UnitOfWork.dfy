/**
 The tables behind one unit of work and the repository operations on them. Each
 operation is proved to compute the function of the same purpose in HandoffSteps.
 */
module UnitOfWork {
  import opened Wrappers
  import opened Journal
  import opened HandoffModel
  import Steps = HandoffSteps

  class Tables {
    var cases: map<int, Case>
    var caseEvents: seq<Row<HandoffEvent>>
    var nextCase: int
    var orders: map<int, Order>
    var orderEvents: seq<Row<OrderEvent>>
    var nextOrder: int
    var confirmations: map<(int, int), Confirmation>
    var sessions: map<int, SessionRow>

    function Rows(): Db
      reads this
    {
      Db(cases, caseEvents, nextCase, orders, orderEvents, nextOrder, confirmations, sessions)
    }

    constructor ()
      ensures Rows() == Steps.EmptyDb
    {
      cases, caseEvents, nextCase := map[], [], 1;
      orders, orderEvents, nextOrder := map[], [], 1;
      confirmations, sessions := map[], map[];
    }

    /** Leaving a unit of work with an error puts every table back. */
    method Rollback(saved: Db)
      modifies this
      ensures Rows() == saved
    {
      cases, caseEvents, nextCase := saved.cases, saved.caseEvents, saved.nextCase;
      orders, orderEvents, nextOrder := saved.orders, saved.orderEvents, saved.nextOrder;
      confirmations, sessions := saved.confirmations, saved.sessions;
    }

    /** next_event_sequence and the insert that follows it. */
    method AddCaseEvent(id: int, e: HandoffEvent)
      modifies this
      ensures Rows() == Steps.AddCaseEvent(old(Rows()), id, e)
    {
      var number := MaxNumber(caseEvents, id) + 1;
      caseEvents := caseEvents + [Row(id, number, e)];
    }

    method AddOrderEvent(id: int, e: OrderEvent)
      modifies this
      ensures Rows() == Steps.AddOrderEvent(old(Rows()), id, e)
    {
      var number := MaxNumber(orderEvents, id) + 1;
      orderEvents := orderEvents + [Row(id, number, e)];
    }

    method InvalidateConfirmation(order: int, version: int)
      modifies this
      ensures Rows() == old(Rows()).(confirmations := Steps.InvalidateAt(old(confirmations), order, version))
    {
      if (order, version) in confirmations && !confirmations[(order, version)].invalidated {
        confirmations := confirmations[(order, version) := Confirmation(true)];
      } else {
        assert (order, version) in confirmations ==> confirmations == confirmations[(order, version) := Confirmation(true)];
      }
    }

    /** Compare-and-set on the session version. */
    method SaveOptimistic(session: int, expected: int, state: SessionState) returns (saved: bool)
      modifies this
      ensures saved <==> Steps.SaveOptimistic(old(Rows()), session, expected, state).Some?
      ensures Rows() == if saved then Steps.SaveOptimistic(old(Rows()), session, expected, state).value else old(Rows())
    {
      saved := session in sessions && sessions[session].version == expected;
      if saved {
        sessions := sessions[session := sessions[session].(version := expected + 1, state := state)];
      }
    }

    /** Compare-and-set on the active statuses. */
    method ClaimCancellation(id: int) returns (claimed: bool)
      modifies this
      ensures claimed <==> Steps.ClaimCancellation(old(Rows()), id).Some?
      ensures Rows() == if claimed then Steps.ClaimCancellation(old(Rows()), id).value else old(Rows())
    {
      claimed := id in cases && IsActive(cases[id].status);
      if claimed {
        cases := cases[id := cases[id].(status := Cancelled, failure := Some(CaseCancelled))];
      }
    }

    /** The first active case of a session in id order. */
    method GetActive(session: int) returns (r: Option<int>)
      ensures r == Steps.FindActive(cases, session, nextCase)
    {
      r := None;
      var id := 0;
      while id < nextCase
        invariant 0 <= id && (id <= nextCase || id == 0)
        invariant r == Steps.FindActive(cases, session, id)
      {
        if r.None? && id in cases && cases[id].session == session && IsActive(cases[id].status) { r := Some(id); }
        id := id + 1;
      }
      assert nextCase < 0 ==> Steps.FindActive(cases, session, nextCase) == None;
    }

    /** The latest order of a session by creation time, then id. */
    method GetLatestForSession(session: int, tenant: int) returns (r: Option<int>)
      ensures r == Steps.LatestOrder(orders, session, tenant, nextOrder)
    {
      r := None;
      var id := 0;
      while id < nextOrder
        invariant 0 <= id && (id <= nextOrder || id == 0)
        invariant r == Steps.LatestOrder(orders, session, tenant, id)
      {
        if id in orders && Steps.OwnedBy(orders[id], session, tenant)
           && (r.None? || orders[r.value].createdAt <= orders[id].createdAt) {
          r := Some(id);
        }
        id := id + 1;
      }
      assert nextOrder < 0 ==> Steps.LatestOrder(orders, session, tenant, nextOrder) == None;
    }
  }
}
