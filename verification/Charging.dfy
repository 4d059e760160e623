/** Charging modes: the charging_mode column first, the two legacy columns after it. */
module Charging {
  import opened Wrappers

  datatype ChargingMode = OnSubmit | OnDlr | ForceDlr | ForceDlrTimeout

  /** The columns a client or supplier row may carry; an unselected column reads as None/false. */
  datatype ModeColumns = ModeColumns(chargingMode: Option<string>, forceDlr: bool, billingMode: Option<string>)

  function ModeNamed(name: string): Option<ChargingMode> {
    match name
    case "on_submit" => Some(OnSubmit)
    case "on_dlr" => Some(OnDlr)
    case "force_dlr" => Some(ForceDlr)
    case "force_dlr_timeout" => Some(ForceDlrTimeout)
    case _ => None
  }

  function ResolveChargingMode(row: ModeColumns): ChargingMode {
    var named := if row.chargingMode.Some? then ModeNamed(row.chargingMode.value) else None;
    if named.Some? then named.value
    else if row.forceDlr then ForceDlr
    else if row.billingMode == Some("dlr") then OnDlr
    else OnSubmit
  }

  predicate IsSubmitCharged(mode: ChargingMode) { mode != OnDlr }
  predicate IsDlrCharged(mode: ChargingMode) { mode == OnDlr }
  predicate IsForceDlr(mode: ChargingMode) { mode == ForceDlr }
  predicate IsForceDlrTimeout(mode: ChargingMode) { mode == ForceDlrTimeout }

  /**
   The timed mode can only come from the new column, and a row read without
   billing_mode (as supplier rows are) is on_dlr only by the new column.
   */
  lemma ModeSources(row: ModeColumns)
    ensures ResolveChargingMode(row) == ForceDlrTimeout <==> row.chargingMode == Some("force_dlr_timeout")
    ensures row.billingMode.None? ==>
              (ResolveChargingMode(row) == OnDlr <==> row.chargingMode == Some("on_dlr"))
    ensures IsSubmitCharged(ResolveChargingMode(row)) <==> !IsDlrCharged(ResolveChargingMode(row))
  {
  }
}
