/**
  `getCountryFlag` and `getCountryName` over the country-code library, which is
  taken as two abstract lookups: alpha-3 to alpha-2 code, and the localised name
  of a code. Either lookup may find nothing; the library's empty string is
  falsy in the source, so it is treated like a missing value.
*/
module Country {
  import opened Wrappers
  import opened Text

  /** The locales registered with the library; the source's default is English. */
  datatype Locale = En | Pl

  /** The library's two lookups, as the source uses them. */
  datatype CountryTables = CountryTables(
    alpha3ToAlpha2: string -> Option<string>,
    getName: (string, Locale) -> Option<string>)

  /** A lookup result JavaScript treats as true: present and not the empty string. */
  predicate Found(o: Option<string>) {
    o.Some? && o.value != ""
  }

  /** `o || fallback`. */
  function OrElse(o: Option<string>, fallback: string): (r: string)
    ensures Found(o) ==> r == o.value
    ensures !Found(o) ==> r == fallback
  {
    if Found(o) then o.value else fallback
  }

  // ---------------------------------------------------------------------------
  // getCountryName
  // ---------------------------------------------------------------------------

  /**
    The name of a code in `locale` (English unless given): looked up under the
    alpha-2 code when the code is a known alpha-3 one, under the code itself
    otherwise, and the code itself when the library has no (or an empty) name.
  */
  function GetCountryName(t: CountryTables, isoCode: string, locale: Locale := En): (r: string)
    ensures Found(t.getName(LookupCode(t, isoCode), locale)) ==> r == t.getName(LookupCode(t, isoCode), locale).value
    ensures !Found(t.getName(LookupCode(t, isoCode), locale)) ==> r == isoCode
  {
    var alpha2 := t.alpha3ToAlpha2(isoCode);
    if Found(alpha2) then OrElse(t.getName(alpha2.value, locale), isoCode)
    else OrElse(t.getName(isoCode, locale), isoCode)
  }

  /** The code the name is looked up under: the alpha-2 code of a known alpha-3 code, else the code itself. */
  function LookupCode(t: CountryTables, isoCode: string): (r: string)
    ensures Found(t.alpha3ToAlpha2(isoCode)) ==> r == t.alpha3ToAlpha2(isoCode).value
    ensures !Found(t.alpha3ToAlpha2(isoCode)) ==> r == isoCode
  {
    OrElse(t.alpha3ToAlpha2(isoCode), isoCode)
  }

  /** A name is blank only when the code is. */
  lemma GetCountryNameNonBlank(t: CountryTables, isoCode: string, locale: Locale)
    requires isoCode != ""
    ensures GetCountryName(t, isoCode, locale) != ""
  {
  }

  // ---------------------------------------------------------------------------
  // getCountryFlag
  // ---------------------------------------------------------------------------

  /** The UTF-16 code units of one character, which is what `split("")` and `charCodeAt` see. */
  function CharUnits(c: char): (u: seq<int>)
    ensures 1 <= |u| <= 2
    ensures forall i :: 0 <= i < |u| ==> 0 <= u[i] <= 0xFFFF
    ensures c as int <= 0xFFFF <==> u == [c as int]
  {
    if c as int <= 0xFFFF then [c as int]
    else
      var v := c as int - 0x1_0000;
      [0xD800 + v / 0x400, 0xDC00 + v % 0x400]
  }

  function Utf16Units(s: string): (u: seq<int>)
    ensures |u| >= |s|
    ensures forall i :: 0 <= i < |u| ==> 0 <= u[i] <= 0xFFFF
  {
    if s == [] then [] else CharUnits(s[0]) + Utf16Units(s[1..])
  }

  /** All characters lie in the Basic Multilingual Plane: one code unit each. */
  predicate IsBmp(s: string) {
    forall i :: 0 <= i < |s| ==> s[i] as int <= 0xFFFF
  }

  /** A string of the Basic Multilingual Plane is its own code units. */
  lemma {:induction false} Utf16UnitsOfBmp(s: string)
    requires IsBmp(s)
    ensures |Utf16Units(s)| == |s|
    ensures forall i :: 0 <= i < |s| ==> Utf16Units(s)[i] == s[i] as int
  {
    if s != [] {
      Utf16UnitsOfBmp(s[1..]);
    }
  }

  /** The offset that takes 'A' to the regional indicator symbol letter A (U+1F1E6). */
  const RegionalOffset: int := 127397

  /** `String.fromCodePoint(127397 + unit)`. */
  function Indicator(unit: int): (c: char)
    requires 0 <= unit <= 0xFFFF
    ensures c as int == RegionalOffset + unit
  {
    (RegionalOffset + unit) as char
  }

  /** One code point per code unit, each shifted by the regional offset. */
  function FlagOfUnits(units: seq<int>): (r: string)
    requires forall i :: 0 <= i < |units| ==> 0 <= units[i] <= 0xFFFF
    ensures |r| == |units|
    ensures forall i :: 0 <= i < |units| ==> r[i] as int == RegionalOffset + units[i]
  {
    if units == [] then [] else [Indicator(units[0])] + FlagOfUnits(units[1..])
  }

  /** The flag of a code: upper-cased, split into UTF-16 code units, each unit shifted. */
  function FlagOf(code: string): string {
    FlagOfUnits(Utf16Units(AsciiUpperString(code)))
  }

  /** `getCountryFlag`: the alpha-2 code of a known alpha-3 code, else the input, turned into a flag. */
  function GetCountryFlag(t: CountryTables, isoCode: string): (r: string)
    ensures Found(t.alpha3ToAlpha2(isoCode)) ==> r == FlagOf(t.alpha3ToAlpha2(isoCode).value)
    ensures !Found(t.alpha3ToAlpha2(isoCode)) ==> r == FlagOf(isoCode)
  {
    FlagOf(OrElse(t.alpha3ToAlpha2(isoCode), isoCode))
  }

  /** Reads a flag back into the code units it was made from. */
  function UnitsOfFlag(flag: string): (u: seq<int>)
    ensures |u| == |flag|
    ensures forall i :: 0 <= i < |flag| ==> u[i] == flag[i] as int - RegionalOffset
  {
    if flag == [] then [] else [flag[0] as int - RegionalOffset] + UnitsOfFlag(flag[1..])
  }

  /**
    A flag reads back as the upper-cased code: one code point per character of a
    code in the Basic Multilingual Plane, each the character's code plus 127397.
  */
  lemma FlagRoundTrip(code: string)
    requires IsBmp(code)
    ensures |FlagOf(code)| == |code|
    ensures forall i :: 0 <= i < |code| ==> UnitsOfFlag(FlagOf(code))[i] == AsciiUpper(code[i]) as int
  {
    var upper := AsciiUpperString(code);
    assert IsBmp(upper);
    Utf16UnitsOfBmp(upper);
  }

  /** Letters of either case map to the regional indicator symbols U+1F1E6 ('A') to U+1F1FF ('Z'). */
  lemma FlagOfLetter(c: char)
    requires 'A' <= c <= 'Z' || 'a' <= c <= 'z'
    ensures |FlagOf([c])| == 1
    ensures 0x1F1E6 <= FlagOf([c])[0] as int <= 0x1F1FF
    ensures FlagOf([c])[0] as int == 0x1F1E6 + (AsciiUpper(c) as int - 'A' as int)
  {
    FlagRoundTrip([c]);
  }

  /** The empty code has the empty flag. */
  lemma FlagOfEmpty()
    ensures FlagOf([]) == []
  {
  }

  /** For codes without an alpha-3 mapping the flag does not depend on letter case. */
  lemma FlagIgnoresCase(t: CountryTables, a: string, b: string)
    requires AsciiCaseInsensitiveEq(a, b)
    requires !Found(t.alpha3ToAlpha2(a)) && !Found(t.alpha3ToAlpha2(b))
    ensures GetCountryFlag(t, a) == GetCountryFlag(t, b)
  {
    assert AsciiUpperString(a) == AsciiUpperString(b);
  }
}
