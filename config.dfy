/** Constants and fixed-width value types of the controller, as configured in config.h. */
module Config {

  /** 2^32: `unsigned long` (and `long`) are 32 bits wide on AVR. */
  const WORD: int := 0x1_0000_0000

  /** A value of `millis()`: milliseconds since start, wrapping at 2^32. */
  type Millis = t: int | 0 <= t < 0x1_0000_0000

  /** A `uint8_t`, the domain of a PWM duty cycle. */
  type Byte = b: int | 0 <= b < 256

  /** What `analogRead` returns on the 10-bit ADC. */
  type AdcValue = x: int | 0 <= x <= 1023

  // System parameters
  const V_REF: real := 5.0
  /** (1 << R_BITS) - 1 with R_BITS = 10. */
  const ADC_STEPS: real := 1023.0

  // Motor parameters
  const HOLD_MS: Millis := 2000
  const PWM_LOW: Byte := 100
  const PWM_HIGH: Byte := 250
  const MAX_OVER_RATIO: real := 0.15

  // Potentiometer parameters
  const POT_MIN_TEMPERATURE_VALUE: int := 15
  const POT_MAX_TEMPERATURE_VALUE: int := 35

  // Temperature sensor parameters
  const MIN_SAFE_TEMPERATURE_VALUE: int := 0
  const MAX_SAFE_TEMPERATURE_VALUE: int := 50
}
