/** Reading DNIs and phones out of free text (src/common/identity.ts, src/players/players.service.ts). */
module Identity {
  import opened Base

  function DigitsOnly(s: string): (d: string)
    ensures |d| <= |s| && forall c :: c in d ==> '0' <= c <= '9'
  {
    if s == "" then ""
    else if '0' <= s[0] <= '9' then [s[0]] + DigitsOnly(s[1..])
    else DigitsOnly(s[1..])
  }

  /** Decimal rendering of a digit string: leading zeros go, but one digit always stays. */
  function StripZeros(d: string): string {
    if |d| > 1 && d[0] == '0' then StripZeros(d[1..]) else d
  }

  /** Canonical DNI, or None when the text does not hold 7 or 8 digits. */
  function NormalizeDni(raw: Option<string>): Option<string> {
    if !Truthy(raw) then None else
      var d := DigitsOnly(raw.value);
      if 7 <= |d| <= 8 then Some(StripZeros(d)) else None
  }

  /** A CUIT carries the DNI in its middle 8 digits; 7 or 8 digits are already a DNI. */
  function DniFromIdentification(number: Option<string>): Option<string> {
    if !Truthy(number) then None else
      var d := DigitsOnly(number.value);
      if |d| == 11 then NormalizeDni(Some(d[2..10])) else NormalizeDni(Some(d))
  }

  predicate DniMatches(a: Option<string>, b: Option<string>) {
    NormalizeDni(a).Some? && NormalizeDni(a) == NormalizeDni(b)
  }
}
