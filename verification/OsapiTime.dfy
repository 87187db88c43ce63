/** Time of osapi (Time.cpp): seconds and milliseconds, updated in place by += and -=. Machine widths are
    not modelled. */
module OsapiTime {

  /** The value of a Time. */
  datatype Stamp = Stamp(sec: int, msec: int)

  /** `/` and `%` of C++, which cut towards zero. */
  function Quotient(n: int): int {
    if n < 0 then -(-n / 1000) else n / 1000
  }

  function Remainder(n: int): int {
    if n < 0 then -(-n % 1000) else n % 1000
  }

  /** The remainder of a negative number is not positive. */
  predicate CarriesOver(n: int) {
    n >= 0 || n % 1000 == 0
  }

  lemma CarryIsExact(n: int)
    ensures Quotient(n) * 1000 + Remainder(n) == n
    ensures 0 <= Remainder(n) < 1000 <==> CarriesOver(n)
  {
  }

  /** What a Time should look like; `sec` may be negative. */
  predicate Normal(s: Stamp) {
    0 <= s.msec < 1000
  }

  /** `totalMSecs`. */
  function Total(s: Stamp): int {
    s.sec * 1000 + s.msec
  }

  /** `operator<`. */
  predicate Less(a: Stamp, b: Stamp) {
    a.sec < b.sec || (a.msec < b.msec && a.sec == b.sec)
  }

  /** `operator<=`. */
  predicate AtMost(a: Stamp, b: Stamp) {
    !Less(b, a)
  }

  /** On normal times the order is the order of the total milliseconds. */
  lemma LessIsOrder(a: Stamp, b: Stamp)
    requires Normal(a) && Normal(b)
    ensures Less(a, b) <==> Total(a) < Total(b)
    ensures AtMost(a, b) <==> Total(a) <= Total(b)
    ensures a == b <==> Total(a) == Total(b)
  {
  }

  /** The times before zero. */
  lemma NegativeTime(d: Stamp)
    requires Normal(d)
    ensures Less(d, Stamp(0, 0)) <==> Total(d) < 0
  {
  }

  /** Outside the normal times the order is not that of the totals. */
  lemma OrderNeedsNormal()
    ensures var a, b := Stamp(0, 2500), Stamp(1, 0); Total(b) < Total(a) && Less(a, b)
  {
  }

  class Time {
    var sec: int
    var msec: int

    function Value(): Stamp
      reads this
    {
      Stamp(sec, msec)
    }

    /** Time(signed long long): normal unless the remainder is negative. */
    constructor (msecs: int)
      ensures Total(Value()) == msecs && (Normal(Value()) <==> CarriesOver(msecs))
    {
      CarryIsExact(msecs);
      sec, msec := Quotient(msecs), Remainder(msecs);
    }

    constructor Copy(s: Stamp)
      ensures Value() == s
    {
      sec, msec := s.sec, s.msec;
    }

    /** `operator+=(const Time&)`; adding a Time to itself doubles it. */
    method PlusAssign(other: Time)
      modifies this
      ensures Total(Value()) == old(Total(Value())) + old(Total(other.Value()))
      ensures Normal(Value()) <==> CarriesOver(old(msec) + old(other.msec))
      ensures other != this ==> other.Value() == old(other.Value())
    {
      CarryIsExact(msec + other.msec);
      msec := msec + other.msec;
      sec := sec + other.sec + Quotient(msec);
      msec := Remainder(msec);
    }

    /** `operator-=(const Time&)`: one second is borrowed, so the difference of two normal times, which may be a
        negative time, is normal. */
    method MinusAssign(other: Time)
      modifies this
      ensures Total(Value()) == old(Total(Value())) - old(Total(other.Value()))
      ensures Normal(Value()) <==> -1000 <= old(msec) - old(other.msec) < 1000
      ensures other != this ==> other.Value() == old(other.Value())
    {
      if other.msec > msec {
        sec := sec - 1;
        msec := msec + 1000;
      }
      msec := msec - other.msec;
      sec := sec - other.sec;
    }

    /** `operator+=(signed long long)`. Taking away more milliseconds than there are loses the normal form. */
    method PlusAssignMsecs(msecs: int)
      modifies this
      ensures Total(Value()) == old(Total(Value())) + msecs
      ensures Normal(Value()) <==> CarriesOver(old(msec) + msecs)
    {
      CarryIsExact(msec + msecs);
      msec := msec + msecs;
      sec := sec + Quotient(msec);
      msec := Remainder(msec);
    }
  }
}
