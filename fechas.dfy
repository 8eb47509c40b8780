/**
 * Calendar dates (java.time.LocalDate) with their ISO-8601 text, and the
 * abstract clock that stands in for LocalDateTime.now().
 */
module Fechas {
  import opened Base
  import opened Texto

  /** A calendar date. */
  datatype Fecha = Fecha(anio: int, mes: int, dia: int)

  /** A point on the application's clock; the caller supplies "now". */
  type Instante = nat

  function Pow10(k: nat): nat
  {
    if k == 0 then 1 else 10 * Pow10(k - 1)
  }

  /** A number with k + 1 digits is written with k + 1 characters. */
  lemma {:induction false} DigitCount(n: nat, k: nat)
    requires Pow10(k) <= n < Pow10(k + 1)
    ensures |NatToString(n)| == k + 1
  {
    if k > 0 {
      DigitCount(n / 10, k - 1);
    }
  }

  /** A non-negative number below 10000 written with exactly four digits. */
  function FourDigits(n: nat): (r: string)
    requires n < 10000
    ensures |r| == 4
  {
    DigitCount(n + 10000, 4);
    NatToString(n + 10000)[1..]
  }

  /** A month or day number, with a leading zero below 10. */
  function TwoDigits(n: int): string
  {
    if n < 10 then "0" + IntToString(n) else IntToString(n)
  }

  /**
   * The year as LocalDate.toString writes it: at least four digits, a '-' in
   * front of a negative year and a '+' in front of one above 9999.
   */
  function AnioIso(y: int): string
  {
    if -1000 < y < 1000 then (if y < 0 then "-" + FourDigits(-y) else FourDigits(y))
    else if y > 9999 then "+" + IntToString(y)
    else IntToString(y)
  }

  /** LocalDate.toString: the year, then "-MM-DD". */
  function FechaIso(f: Fecha): string
  {
    AnioIso(f.anio) + "-" + TwoDigits(f.mes) + "-" + TwoDigits(f.dia)
  }

  /** A date of the years 0 to 9999 takes the ten characters "YYYY-MM-DD". */
  lemma FechaIsoShape(f: Fecha)
    requires 0 <= f.anio <= 9999 && 1 <= f.mes <= 12 && 1 <= f.dia <= 31
    ensures |FechaIso(f)| == 10
    ensures FechaIso(f)[4] == '-' && FechaIso(f)[7] == '-'
  {
    if f.anio >= 1000 { DigitCount(f.anio, 3); } else { assert |FourDigits(f.anio)| == 4; }
    if f.mes < 10 { DigitCount(f.mes, 0); } else { DigitCount(f.mes, 1); }
    if f.dia < 10 { DigitCount(f.dia, 0); } else { DigitCount(f.dia, 1); }
  }

  // ---------------------------------------------------------------- reading a date back

  predicate Digitos(s: string)
  {
    forall i :: 0 <= i < |s| ==> IsDigit(s[i])
  }

  /** Digits read back, under an optional sign. */
  function LeerEntero(t: string): Option<int>
  {
    if |t| > 0 && (t[0] == '-' || t[0] == '+') && Digitos(t[1..]) then
      Some(if t[0] == '-' then -DigitsValue(t[1..]) else DigitsValue(t[1..]))
    else if Digitos(t) then Some(DigitsValue(t))
    else None
  }

  /** Reads "<year>-MM-DD" back into a date: the last six characters hold the month and the day. */
  function LeerFechaIso(s: string): Option<Fecha>
  {
    if |s| >= 6 && s[|s| - 6] == '-' && s[|s| - 3] == '-' then
      var y, m, d := LeerEntero(s[..|s| - 6]), LeerEntero(s[|s| - 5..|s| - 3]), LeerEntero(s[|s| - 2..]);
      if y.Some? && m.Some? && d.Some? then Some(Fecha(y.value, m.value, d.value)) else None
    else None
  }

  /** Every date whose month and day are in range prints as a text that reads back as that date. */
  lemma FechaIsoRoundTrip(f: Fecha)
    requires 1 <= f.mes <= 12 && 1 <= f.dia <= 31
    ensures LeerFechaIso(FechaIso(f)) == Some(f)
  {
    var a, m, d := AnioIso(f.anio), TwoDigits(f.mes), TwoDigits(f.dia);
    AnioRoundTrip(f.anio);
    TwoDigitsRoundTrip(f.mes);
    TwoDigitsRoundTrip(f.dia);
    var s := FechaIso(f);
    assert s == a + ("-" + m + "-" + d);
    assert s[..|s| - 6] == a;
    assert s[|s| - 5..|s| - 3] == m;
    assert s[|s| - 2..] == d;
  }

  /** How many digits the leading digit of a text stands for. */
  lemma {:induction false} DigitsValueSinPrimero(s: string)
    requires |s| >= 1 && Digitos(s)
    ensures DigitsValue(s) == (s[0] as int - '0' as int) * Pow10(|s| - 1) + DigitsValue(s[1..])
  {
    if |s| > 1 {
      var p := s[..|s| - 1];
      DigitsValueSinPrimero(p);
      assert p[1..] == s[1..][..|s[1..]| - 1];
    }
  }

  /** k digits never reach 10^k. */
  lemma {:induction false} DigitsValueCota(s: string)
    requires Digitos(s)
    ensures 0 <= DigitsValue(s) < Pow10(|s|)
  {
    if s != [] {
      DigitsValueCota(s[..|s| - 1]);
    }
  }

  /** The four digits of a year below 10000 read back as the year. */
  lemma FourDigitsRoundTrip(n: nat)
    requires n < 10000
    ensures Digitos(FourDigits(n)) && DigitsValue(FourDigits(n)) == n
  {
    var t := NatToString(n + 10000);
    DigitCount(n + 10000, 4);
    NatToStringRoundTrip(n + 10000);
    DigitsValueSinPrimero(t);
    DigitsValueCota(t[1..]);
  }

  /** A month or day in range prints as two digits that read back as it. */
  lemma TwoDigitsRoundTrip(n: int)
    requires 1 <= n <= 31
    ensures |TwoDigits(n)| == 2 && LeerEntero(TwoDigits(n)) == Some(n)
  {
    NatToStringRoundTrip(n);
    if n < 10 {
      DigitCount(n, 0);
      var t := TwoDigits(n);
      DigitsValueSinPrimero(t);
    } else {
      DigitCount(n, 1);
    }
  }

  /** Every year prints as a text that reads back as that year. */
  lemma AnioRoundTrip(y: int)
    ensures LeerEntero(AnioIso(y)) == Some(y)
  {
    if -1000 < y < 1000 {
      AnioCortoRoundTrip(y);
    } else {
      AnioLargoRoundTrip(y);
    }
  }

  lemma AnioLargoRoundTrip(y: int)
    requires y <= -1000 || 1000 <= y
    ensures LeerEntero(AnioIso(y)) == Some(y)
  {
    var n := if y < 0 then -y else y;
    var t := NatToString(n);
    NatToStringRoundTrip(n);
    if y > 9999 {
      assert AnioIso(y) == "+" + t && AnioIso(y)[1..] == t;
    } else if y < 0 {
      assert AnioIso(y) == "-" + t && AnioIso(y)[1..] == t;
    } else {
      assert AnioIso(y) == t;
    }
  }

  lemma AnioCortoRoundTrip(y: int)
    requires -1000 < y < 1000
    ensures LeerEntero(AnioIso(y)) == Some(y)
  {
    if y < 0 {
      FourDigitsRoundTrip(-y);
      assert AnioIso(y) == "-" + FourDigits(-y);
      assert AnioIso(y)[1..] == FourDigits(-y);
    } else {
      FourDigitsRoundTrip(y);
      DigitCount(y + 10000, 4);
      assert AnioIso(y) == FourDigits(y);
    }
  }

  /** Digits and signs only: what a number or a date prints as. */
  predicate Numerico(s: string)
  {
    forall i :: 0 <= i < |s| ==> IsDigit(s[i]) || s[i] == '-' || s[i] == '+'
  }

  lemma NumericoConcat(a: string, b: string)
    requires Numerico(a) && Numerico(b)
    ensures Numerico(a + b)
  {
    forall i | 0 <= i < |a + b| ensures IsDigit((a + b)[i]) || (a + b)[i] == '-' || (a + b)[i] == '+' {
      if i < |a| { assert (a + b)[i] == a[i]; } else { assert (a + b)[i] == b[i - |a|]; }
    }
  }

  lemma IntToStringNumerico(n: int)
    ensures Numerico(IntToString(n))
  {
    if n < 0 { NumericoConcat("-", NatToString(-n)); }
  }

  /** A printed date holds nothing but digits, dashes and a possible '+'. */
  lemma FechaIsoNumerica(f: Fecha)
    ensures Numerico(FechaIso(f))
  {
    var y := f.anio;
    if -1000 < y < 1000 {
      var n := if y < 0 then -y else y;
      assert Numerico(FourDigits(n)) by {
        var t := NatToString(n + 10000);
        forall i | 0 <= i < |t[1..]| ensures IsDigit(t[1..][i]) { assert t[1..][i] == t[i + 1]; }
      }
      if y < 0 { NumericoConcat("-", FourDigits(n)); }
    } else {
      IntToStringNumerico(y);
      if y > 9999 { NumericoConcat("+", IntToString(y)); }
    }
    IntToStringNumerico(f.mes);
    IntToStringNumerico(f.dia);
    NumericoConcat("0", IntToString(f.mes));
    NumericoConcat("0", IntToString(f.dia));
    var a, m, d := AnioIso(f.anio), TwoDigits(f.mes), TwoDigits(f.dia);
    NumericoConcat(a, "-");
    NumericoConcat(a + "-", m);
    NumericoConcat(a + "-" + m, "-");
    NumericoConcat(a + "-" + m + "-", d);
  }
}
