/**
 * Sample-rate queries. The magnetometer's configured data-rate code maps to a
 * fixed frequency; the inertial channels compute `(1 << odr) * 0.39` Hz, kept
 * here as an exact integer count of hundredths of a hertz.
 */
module Rates {
  import opened Wrappers

  /**
   * The magnetometer's data-rate setting: the eight named codes, or a raw
   * value. `Unnamed` stands only for a value that no named code has.
   */
  datatype MagDataRate =
    | Rate10Hz | Rate02Hz | Rate06Hz | Rate08Hz
    | Rate15Hz | Rate20Hz | Rate25Hz | Rate30Hz
    | Unnamed(raw: bv8)

  /** `magneticFieldSampleRate`: the frequency of a named code, 0 for anything else. */
  function MagRateHz(rate: MagDataRate): (hz: nat)
    ensures hz == 0 <==> rate.Unnamed?
    ensures hz in {0, 2, 6, 8, 10, 15, 20, 25, 30}
  {
    match rate
    case Rate10Hz => 10
    case Rate02Hz => 2
    case Rate06Hz => 6
    case Rate08Hz => 8
    case Rate15Hz => 15
    case Rate20Hz => 20
    case Rate25Hz => 25
    case Rate30Hz => 30
    case Unnamed(_) => 0
  }

  /** The named code for a frequency, if there is one: the inverse of the lookup. */
  function MagRateForHz(hz: nat): (r: Option<MagDataRate>)
    ensures r.Some? ==> !r.value.Unnamed?
  {
    match hz
    case 10 => Some(Rate10Hz)
    case 2 => Some(Rate02Hz)
    case 6 => Some(Rate06Hz)
    case 8 => Some(Rate08Hz)
    case 15 => Some(Rate15Hz)
    case 20 => Some(Rate20Hz)
    case 25 => Some(Rate25Hz)
    case 30 => Some(Rate30Hz)
    case _ => None
  }

  /** The eight named codes have distinct frequencies, so each is recovered from its rate. */
  lemma MagRateRoundTrip(rate: MagDataRate)
    requires !rate.Unnamed?
    ensures MagRateForHz(MagRateHz(rate)) == Some(rate)
  {
  }

  /** Every frequency the inverse accepts is reported by its code. */
  lemma MagRateForHzSound(hz: nat)
    requires MagRateForHz(hz).Some?
    ensures MagRateHz(MagRateForHz(hz).value) == hz
  {
  }

  function Pow2(n: nat): (r: nat)
    ensures r >= 1
  {
    if n == 0 then 1 else 2 * Pow2(n - 1)
  }

  /**
   * `accelerationSampleRate` / `gyroscopeSampleRate` in hundredths of a hertz:
   * (1 << odr) * 39. A left shift of a C `int` is defined for odr < 31.
   */
  function ImuRateCentiHz(odr: nat): (r: nat)
    requires odr < 31
    ensures r >= 39 && r % 39 == 0
  {
    Pow2(odr) * 39
  }

  /** Each step up in the rate code doubles the rate. */
  lemma ImuRateDoubles(odr: nat)
    requires odr < 30
    ensures ImuRateCentiHz(odr + 1) == 2 * ImuRateCentiHz(odr)
  {
  }

  /** The rate grows strictly with the code. */
  lemma {:induction false} ImuRateIncreasing(lo: nat, hi: nat)
    requires lo < hi < 31
    ensures ImuRateCentiHz(lo) < ImuRateCentiHz(hi)
  {
    if hi > lo + 1 {
      ImuRateIncreasing(lo, hi - 1);
    }
    ImuRateDoubles(hi - 1);
  }

  /** Code 8 reads back as 99.84 Hz, just under 100 Hz. */
  lemma ImuRateOfCode8()
    ensures ImuRateCentiHz(8) == 9984
  {
    assert Pow2(8) == 256 by {
      assert Pow2(4) == 16;
    }
  }
}
