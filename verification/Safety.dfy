/** The battery sample both safety controllers decide on. */
module Safety {
  import opened Basics
  import opened Power

  /** Points above a threshold at which the battery counts as recovered from it. */
  const RECOVERY_MARGIN: int := 2

  /** `source` is `None` when no watcher is attached and the source string is empty. */
  datatype Sample = Sample(
    now: Option<int>, present: bool, percent: Option<int>, discharging: bool, source: Option<Source>, force: bool)
  {
    /** The sample with the clock's time where it carried none. */
    function Stamped(clock: int): (s: StampedSample)
      ensures now.Some? ==> s == this
    {
      if now.None? then this.(now := Some(clock)) else this
    }

    predicate OnAC() {
      source == Some(AC)
    }

    /** Neither charging nor on mains. */
    predicate Draining() {
      discharging && !OnAC()
    }
  }

  type StampedSample = s: Sample | s.now.Some? witness NO_SAMPLE.(now := Some(0))

  const NO_SAMPLE: Sample := Sample(None, false, None, false, None, false)

  /** A host action of the shutdown plan. */
  datatype HostAction = StopDocker | Sync | PowerOff

  const DRAIN_PLAN: seq<HostAction> := [StopDocker, Sync, PowerOff]

  /** Which executor a sequence of host actions is given to. */
  datatype Executor = Recording | Real
}
