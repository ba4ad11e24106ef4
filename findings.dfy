/** Concrete runs of the climate entity: two where its code departs from
    what it evidently means to do, and one where the displayed mode and the
    believed power state stop agreeing. */
module Findings {
  import Miio
  import opened Climate

  /** A poll that raises leaves the entity marked available (and the poll
      aborted), where the corrected poll marks it unavailable. */
  method FailedPollScenario() returns (availableAsWritten: bool, availableAsIntended: bool)
    ensures availableAsWritten && !availableAsIntended
  {
    var written := new ACPartnerClimate(None, None);
    var calls, aborted := written.Update(Miio.PollReply.Raised);
    availableAsWritten := written.available;

    var intended := new ACPartnerClimate(None, None);
    calls := intended.UpdateAsIntended(Miio.PollReply.Raised);
    availableAsIntended := intended.available;
  }

  /** Changing the fan speed while cooling sends `off` to the device, where
      the corrected operation sends `on`. */
  method FanChangeWhileCoolingScenario() returns (asWritten: seq<Miio.Call>, asIntended: seq<Miio.Call>)
    ensures asWritten == [Miio.TurnOff]
    ensures asIntended == [Miio.TurnOn]
  {
    var entity := new ACPartnerClimate(None, None);
    var calls := entity.SetHvacMode(Cool, _ => Miio.Ok);
    asWritten := entity.SetFanMode(Miio.FanSpeed.High, _ => Miio.Ok);
    asIntended := entity.SetFanModeAsIntended(Miio.FanSpeed.High, _ => Miio.Ok);
  }

  /** Restoring a previous state of "off" together with a last mode leaves
      the mode shown as Off while the unit is believed on. */
  method RestoredOffScenario() returns (consistent: bool)
    ensures !consistent
  {
    var entity := new ACPartnerClimate(None, None);
    entity.Restore(Some(Snapshot(Mode(Off), Miio.FanSpeed.Low, Miio.SwingMode.On, None, Some(Some(Cool)))));
    consistent := entity.Consistent();
  }
}
