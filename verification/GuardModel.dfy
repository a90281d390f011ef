/** The counters of registry/guard.go as a value. */
module GuardModel {

  datatype GuardData = GuardData(expPerMin: int, expThreshold: int, facInMin: int, facLastMin: int)
  {
    /** Fewer heartbeats arrived in the last minute than the threshold asks for. */
    predicate Protecting() {
      facLastMin < expThreshold
    }
  }

  const NEW_GUARD := GuardData(0, 0, 0, 0)

  /** int64(float64(n) * 0.85), which truncates toward zero. */
  function Percent85(n: int): int {
    if n >= 0 then 17 * n / 20 else -(17 * -n / 20)
  }

  function SetExp(g: GuardData, cnt: int): GuardData {
    g.(expPerMin := cnt * 2, expThreshold := Percent85(cnt * 2))
  }

  function IncrExp(g: GuardData): GuardData {
    g.(expPerMin := g.expPerMin + 2, expThreshold := Percent85(g.expPerMin + 2))
  }

  function DecrExp(g: GuardData): GuardData {
    if g.expPerMin > 0 then
      g.(expPerMin := g.expPerMin - 2, expThreshold := Percent85(g.expPerMin - 2))
    else g
  }

  function UpdateFac(g: GuardData): GuardData {
    g.(facLastMin := g.facInMin, facInMin := 0)
  }

  function IncrFac(g: GuardData): GuardData {
    g.(facInMin := g.facInMin + 1)
  }
}
