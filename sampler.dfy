/** The noise-resistant temperature sampler: median of three ADC readings, then the TMP36 transfer function. */
module Sampler {
  import opened Config

  function Min3(a: int, b: int, c: int): int {
    if a <= b && a <= c then a else if b <= c then b else c
  }

  function Max3(a: int, b: int, c: int): int {
    if a >= b && a >= c then a else if b >= c then b else c
  }

  /** `median3`: a value lying between the other two (inclusive) is the median. */
  function Median3(a: int, b: int, c: int): (m: int)
    ensures m == a || m == b || m == c
    ensures Min3(a, b, c) <= m <= Max3(a, b, c)
    ensures m == a + b + c - Min3(a, b, c) - Max3(a, b, c)
  {
    if (a >= b && a <= c) || (a <= b && a >= c) then a
    else if (b >= a && b <= c) || (b <= a && b >= c) then b
    else c
  }

  /** The median does not depend on the order in which the three samples were taken. */
  lemma Median3Symmetric(a: int, b: int, c: int)
    ensures Median3(a, b, c) == Median3(b, a, c) == Median3(a, c, b)
    ensures Median3(a, b, c) == Median3(c, b, a) == Median3(b, c, a) == Median3(c, a, b)
  {
  }

  /** One spike among three samples is discarded: two agreeing samples win. */
  lemma Median3IgnoresSingleSpike(v: int, spike: int)
    ensures Median3(v, v, spike) == v && Median3(v, spike, v) == v && Median3(spike, v, v) == v
  {
  }

  /** TMP36 transfer function: raw -> volts -> degrees Celsius (0.5 V at 0 C, 10 mV per degree). */
  function Celsius(raw: int): (t: real)
    // the sensor voltage the reading stands for is 0.5 V plus 10 mV per degree
    ensures (raw as real / ADC_STEPS) * V_REF == 0.5 + t / 100.0
  {
    var voltage := (raw as real / ADC_STEPS) * V_REF;
    (voltage - 0.5) * 100.0
  }

  /** A larger ADC count never reads as a lower temperature; the full 0..1023 scale spans -50..450 C. */
  lemma CelsiusMonotonic(x: int, y: int)
    requires x <= y
    ensures Celsius(x) <= Celsius(y)
    ensures Celsius(0) == -50.0 && Celsius(1023) == 450.0
  {
  }

  /** `readTemperatureC` with the three `analogRead` results passed in. */
  function ReadTemperatureC(r1: AdcValue, r2: AdcValue, r3: AdcValue): (t: real)
    ensures t == Celsius(r1) || t == Celsius(r2) || t == Celsius(r3)
    ensures Celsius(Min3(r1, r2, r3)) <= t <= Celsius(Max3(r1, r2, r3))
    ensures Celsius(0) <= t <= Celsius(1023)
    // the median reading is the one converted: a single spike is discarded
    ensures t == Celsius(r1 + r2 + r3 - Min3(r1, r2, r3) - Max3(r1, r2, r3))
    ensures (r1 == r2 || r1 == r3) ==> t == Celsius(r1)
    ensures r2 == r3 ==> t == Celsius(r2)
  {
    var m := Median3(r1, r2, r3);
    CelsiusMonotonic(Min3(r1, r2, r3), m);
    CelsiusMonotonic(m, Max3(r1, r2, r3));
    CelsiusMonotonic(0, m);
    CelsiusMonotonic(m, 1023);
    Celsius(m)
  }
}
