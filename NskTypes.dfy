// The enumerations of the speech SDK's type header and their integer raw
// values. Every controller converts through these: the picker row is a
// language-code raw value, and the end-point-detection callback delivers an
// EPD-type raw value.
//
// The model converts a raw value only when it is one the header declares, and
// yields None on every other integer. (Swift's conversion of an imported C
// enum accepts any integer; the model does not represent undeclared codes.)

module NskTypes {

  datatype Option<T> = None | Some(value: T)

  /** Speaker gender attached to a final recognition result. */
  datatype Gender = Male | Female

  /** The languages the recognizer accepts, plus the "no language" code. */
  datatype LanguageCode = NoLanguage | Korean | Japanese | English | SimplifiedChinese

  /** End-point-detection strategy, plus the "no strategy" value. */
  datatype EpdType = NoEpd | Auto | Manual | Hybrid

  // ---------------------------------------------------------------- Gender

  function GenderRaw(g: Gender): (n: int)
    ensures 0 <= n <= 1
  {
    match g
    case Male => 0
    case Female => 1
  }

  function GenderFromRaw(n: int): (r: Option<Gender>)
    ensures r.Some? <==> n == 0 || n == 1
    ensures r.Some? ==> GenderRaw(r.value) == n
  {
    if n == 0 then Some(Male)
    else if n == 1 then Some(Female)
    else None
  }

  lemma GenderRoundTrip(g: Gender)
    ensures GenderFromRaw(GenderRaw(g)) == Some(g)
  {
    match g
    case Male =>
    case Female =>
  }

  /** Distinct genders have distinct raw values. */
  lemma GenderRawInjective(a: Gender, b: Gender)
    requires GenderRaw(a) == GenderRaw(b)
    ensures a == b
  {
    GenderRoundTrip(a);
    GenderRoundTrip(b);
  }

  // ---------------------------------------------------------- LanguageCode

  function LanguageRaw(c: LanguageCode): (n: int)
    ensures -1 <= n <= 3
    ensures n == -1 <==> c == NoLanguage
  {
    match c
    case NoLanguage => -1
    case Korean => 0
    case Japanese => 1
    case English => 2
    case SimplifiedChinese => 3
  }

  function LanguageFromRaw(n: int): (r: Option<LanguageCode>)
    ensures r.Some? <==> -1 <= n <= 3
    ensures r.Some? ==> LanguageRaw(r.value) == n
  {
    if n == -1 then Some(NoLanguage)
    else if n == 0 then Some(Korean)
    else if n == 1 then Some(Japanese)
    else if n == 2 then Some(English)
    else if n == 3 then Some(SimplifiedChinese)
    else None
  }

  lemma LanguageRoundTrip(c: LanguageCode)
    ensures LanguageFromRaw(LanguageRaw(c)) == Some(c)
  {
    match c
    case NoLanguage =>
    case Korean =>
    case Japanese =>
    case English =>
    case SimplifiedChinese =>
  }

  /** Distinct language codes have distinct raw values. */
  lemma LanguageRawInjective(a: LanguageCode, b: LanguageCode)
    requires LanguageRaw(a) == LanguageRaw(b)
    ensures a == b
  {
    LanguageRoundTrip(a);
    LanguageRoundTrip(b);
  }

  // --------------------------------------------------------------- EpdType

  function EpdRaw(t: EpdType): (n: int)
    ensures -1 <= n <= 2
    ensures n == -1 <==> t == NoEpd
  {
    match t
    case NoEpd => -1
    case Auto => 0
    case Manual => 1
    case Hybrid => 2
  }

  function EpdFromRaw(n: int): (r: Option<EpdType>)
    ensures r.Some? <==> -1 <= n <= 2
    ensures r.Some? ==> EpdRaw(r.value) == n
  {
    if n == -1 then Some(NoEpd)
    else if n == 0 then Some(Auto)
    else if n == 1 then Some(Manual)
    else if n == 2 then Some(Hybrid)
    else None
  }

  lemma EpdRoundTrip(t: EpdType)
    ensures EpdFromRaw(EpdRaw(t)) == Some(t)
  {
    match t
    case NoEpd =>
    case Auto =>
    case Manual =>
    case Hybrid =>
  }

  /** Distinct EPD types have distinct raw values. */
  lemma EpdRawInjective(a: EpdType, b: EpdType)
    requires EpdRaw(a) == EpdRaw(b)
    ensures a == b
  {
    EpdRoundTrip(a);
    EpdRoundTrip(b);
  }
}
