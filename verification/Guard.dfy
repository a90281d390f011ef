/** The Guard object of registry/guard.go. */
module GuardObject {
  import opened GuardModel

  class Guard {
    var expPerMin: int
    var expThreshold: int
    var facInMin: int
    var facLastMin: int

    ghost function Value(): GuardData
      reads this
    {
      GuardData(expPerMin, expThreshold, facInMin, facLastMin)
    }

    constructor ()
      ensures Value() == NEW_GUARD
    {
      expPerMin, expThreshold, facInMin, facLastMin := 0, 0, 0, 0;
    }

    method SetExp(cnt: int)
      modifies this
      ensures Value() == GuardModel.SetExp(old(Value()), cnt)
    {
      expPerMin := cnt * 2;
      expThreshold := Percent85(expPerMin);
    }

    method IncrExp()
      modifies this
      ensures Value() == GuardModel.IncrExp(old(Value()))
    {
      expPerMin := expPerMin + 2;
      expThreshold := Percent85(expPerMin);
    }

    method DecrExp()
      modifies this
      ensures Value() == GuardModel.DecrExp(old(Value()))
    {
      if expPerMin > 0 {
        expPerMin := expPerMin - 2;
        expThreshold := Percent85(expPerMin);
      }
    }

    method UpdateFac()
      modifies this
      ensures Value() == GuardModel.UpdateFac(old(Value()))
    {
      facLastMin := facInMin;
      facInMin := 0;
    }

    method IncrFac()
      modifies this
      ensures Value() == GuardModel.IncrFac(old(Value()))
    {
      facInMin := facInMin + 1;
    }

    method Ok() returns (protecting: bool)
      ensures protecting == Value().Protecting()
    {
      protecting := facLastMin < expThreshold;
    }
  }
}
