/** The vocabulary shared by planner and controller (ems/domain.py). */
module Domain {
  /** What the controller physically commands the battery into. */
  datatype Mode = Auto | Charge | Discharge | Idle

  /** What the planner wants of the battery. */
  datatype Intent = AllowSelfConsumption | GridChargeToTarget | HoldReserve | DischargeForLoad | ExportForProfit
}
