/** The JVM `Double` as the calculation service sees it: a finite value, NaN,
    or one of the two infinities. Rounding is not modelled; a finite value is a
    real number whose magnitude is at most `Double.MAX_VALUE`. */
module Numbers {

  /** `Double.MAX_VALUE`, that is (2 - 2^-52) * 2^1023, written out exactly. */
  const MaxDouble: real := 179769313486231570814527423731704356798070567525844996598917476803157260780028538760589558632766878171540458953514382464234321326889464182768467546703537516986049910576551282076245490090389328944075868508455133942304583236903222948165808559332123348274797826204144723168738177180919299881250404026184124858368 as real

  /** The real numbers a finite `Double` can hold. */
  type Magnitude = x: real | -MaxDouble <= x <= MaxDouble

  datatype Double = Finite(x: Magnitude) | NaN | PosInf | NegInf {

    /** `Double.isNaN()`. */
    predicate IsNaN()
    {
      NaN?
    }

    /** `Double.isInfinite()`. */
    predicate IsInfinite()
    {
      PosInf? || NegInf?
    }

    /** `kotlin.math.abs` followed by the comparison `> Double.MAX_VALUE`. */
    predicate AbsExceedsMax()
    {
      match this
      case Finite(v) => (if v < 0.0 then -v else v) > MaxDouble
      case NaN => false
      case _ => true
    }

    /** The IEEE comparison `this < c`: false whenever NaN is involved. */
    predicate LessThan(c: real)
    {
      match this
      case Finite(v) => v < c
      case NegInf => true
      case _ => false
    }

    /** The IEEE comparison `this > c`: false whenever NaN is involved. */
    predicate GreaterThan(c: real)
    {
      match this
      case Finite(v) => v > c
      case PosInf => true
      case _ => false
    }

    /** The IEEE equality `this == c` against a finite constant. */
    predicate EqualTo(c: real)
    {
      Finite? && x == c
    }
  }
}
