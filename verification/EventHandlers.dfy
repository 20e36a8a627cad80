/** Inventory's handlers of shipment events, as code over the stock service. */
module EventHandlers {
  import opened Common
  import opened StockTables
  import opened StockOps
  import opened LifecycleStock
  import ReservationService
  import SM = StateMachine

  method OnShipmentCreated(service: ReservationService.Service, shipment: Id, now: Time) returns (outcome: Outcome)
    requires Constraints(service.Tables())
    modifies service
    ensures (service.Tables(), outcome) == OnMessage(old(service.Tables()), shipment, ShipmentCreated, now)
  {
    outcome := service.Confirm(shipment, now);
  }

  /** Dispatched commits, cancelled releases, and every other status leaves the stock alone. */
  method OnShipmentStatusChanged(service: ReservationService.Service, shipment: Id, status: SM.Status, now: Time)
    returns (outcome: Outcome)
    requires Constraints(service.Tables())
    modifies service
    ensures (service.Tables(), outcome) == OnMessage(old(service.Tables()), shipment, StatusChanged(status), now)
  {
    outcome := Moved(0);
    if status == SM.DISPATCHED {
      outcome := service.Commit(shipment, now);
    } else if status == SM.CANCELLED {
      outcome := service.Release(shipment, now);
    }
  }
}
