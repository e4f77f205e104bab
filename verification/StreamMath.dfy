/** The accrual formula: pure functions of the stream record and the ledger time. */
module StreamMath {
  import opened Host
  import opened StreamStorage

  function CheckedMul(x: i128, y: int): Result<i128, Error> {
    if FitsI128(x * y) then Ok(x * y) else Err(ArithmeticOverflow)
  }

  /** The instant up to which a started stream counts: the end clamp is tested before the pause. */
  function EffectiveNow(info: StreamInfo, now: u64): u64 {
    if info.endTime > 0 && now > info.endTime then info.endTime
    else if info.IsPaused() then info.pausedAt
    else now
  }

  function StreamedAmount(info: StreamInfo, now: u64): Result<i128, Error> {
    if now < info.startTime then Ok(0)
    else if EffectiveNow(info, now) < info.startTime then Err(ArithmeticOverflow)
    else CheckedMul(info.rate, EffectiveNow(info, now) - info.startTime)
  }

  function SaturatingSub(x: i128, y: i128): i128 {
    if x - y > I128_MAX then I128_MAX
    else if x - y < I128_MIN then I128_MIN
    else x - y
  }

  function Withdrawable(info: StreamInfo, now: u64): Result<i128, Error> {
    match StreamedAmount(info, now)
    case Err(e) => Err(e)
    case Ok(streamed) => Ok(Max(SaturatingSub(streamed, info.withdrawn), 0))
  }
}
