// The language table shared by the three sample controllers: a fixed map
// from language code to display name, and one mutable selection.

module Common {

  import opened NskTypes

  /** Display names in picker-row order: row i shows the language whose raw value is i. */
  const RowNames: seq<string> := ["Korean", "Japanese", "English", "Simplified Chinese"]

  /** The name shown when a code or index has no entry in the table. */
  const FallbackName: string := "Korean"

  /** The selection after selectLanguage(at: index) from the selection `current`. */
  function Selecting(current: LanguageCode, index: int): LanguageCode
  {
    match LanguageFromRaw(index)
    case Some(code) => code
    case None => current
  }

  /** Selecting a picker row selects the language whose raw value is that row. */
  lemma SelectingRow(current: LanguageCode, index: int)
    requires 0 <= index < |RowNames|
    ensures LanguageRaw(Selecting(current, index)) == index
    ensures Selecting(current, index) != NoLanguage
  {
  }

  /** An index that is no declared raw value leaves the selection as it was. */
  lemma SelectingUndeclared(current: LanguageCode, index: int)
    requires index < -1 || 3 < index
    ensures Selecting(current, index) == current
  {
  }

  class Languages {
    /** The code-to-name table; a constant, so no operation can change it. */
    const table: map<LanguageCode, string> :=
      map[Korean := "Korean", Japanese := "Japanese", English := "English",
          SimplifiedChinese := "Simplified Chinese"]
    var selected: LanguageCode

    constructor ()
      ensures selected == Korean
      ensures SelectedLanguageString() == "Korean"
    {
      selected := Korean;
    }

    /** The number of table entries: one per picker row. */
    function Count(): (n: int)
      ensures n == |RowNames| == 4
    {
      assert table.Keys == {Korean, Japanese, English, SimplifiedChinese};
      |table|
    }

    /** The code the next start uses; its picker-row title is the selection's name. */
    function SelectedLanguage(): (c: LanguageCode)
      reads this
      ensures LanguageString(LanguageRaw(c)) == SelectedLanguageString()
    {
      selected
    }

    /** The selection's name; the same name the picker shows for the selection's row. */
    function SelectedLanguageString(): (s: string)
      reads this
      ensures s in RowNames
      ensures s == LanguageString(LanguageRaw(selected))
    {
      LanguageRoundTrip(selected);
      if selected in table then table[selected] else FallbackName
    }

    /** The title of picker row `index`; "Korean" for an index with no table entry. */
    function LanguageString(index: int): (s: string)
      ensures 0 <= index < |RowNames| ==> s == RowNames[index]
      ensures !(0 <= index < |RowNames|) ==> s == FallbackName
    {
      match LanguageFromRaw(index)
      case Some(code) => if code in table then table[code] else FallbackName
      case None => FallbackName
    }

    /** Selects the language with raw value `index`; changes nothing when there is none. */
    method SelectLanguage(index: int)
      modifies this
      ensures SelectedLanguage() == Selecting(old(SelectedLanguage()), index)
      ensures 0 <= index < |RowNames| ==>
                LanguageRaw(SelectedLanguage()) == index && SelectedLanguageString() == LanguageString(index)
    {
      match LanguageFromRaw(index)
      case Some(language) =>
        selected := language;
      case None =>
    }
  }
}
