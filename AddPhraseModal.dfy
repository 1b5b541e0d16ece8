/**
 * The manual-entry form (components/AddPhraseModal.tsx): its field state,
 * the validation and defaults of handleSubmit, and the reset after saving.
 */
module AddPhraseModal {
  import opened Wrappers
  import opened Types

  /** What the form hands to onSave: a saved phrase without id, timestamp and source. */
  datatype ManualEntry = ManualEntry(
    arabicText: string,
    phonetic: string,
    englishTranslation: string,
    usageContext: string,
    category: Category)

  const MissingText: string := "---"
  const DefaultUsageContext: string := "Custom phrase"

  /** `value || fallback` on strings: only the empty string is falsy. */
  function OrDefault(value: string, fallback: string): string
  {
    if value == "" then fallback else value
  }

  /**
   * The record handleSubmit saves: the main text and the category verbatim, an
   * empty phonetic or translation as "---", an empty usage context as
   * "Custom phrase", others unchanged.
   */
  function BuildEntry(arabicText: string, phonetic: string, englishTranslation: string,
                      usageContext: string, category: Category): (e: ManualEntry)
    ensures e.arabicText == arabicText && e.category == category
    ensures e.phonetic != "" && e.englishTranslation != "" && e.usageContext != ""
    ensures phonetic != "" ==> e.phonetic == phonetic
    ensures englishTranslation != "" ==> e.englishTranslation == englishTranslation
    ensures usageContext != "" ==> e.usageContext == usageContext
    ensures phonetic == "" ==> e.phonetic == MissingText
    ensures englishTranslation == "" ==> e.englishTranslation == MissingText
    ensures usageContext == "" ==> e.usageContext == DefaultUsageContext
  {
    ManualEntry(arabicText, OrDefault(phonetic, MissingText), OrDefault(englishTranslation, MissingText),
                OrDefault(usageContext, DefaultUsageContext), category)
  }

  /** Filling in defaults twice is the same as once. */
  lemma BuildEntryIdempotent(arabicText: string, phonetic: string, englishTranslation: string,
                             usageContext: string, category: Category)
    ensures var e := BuildEntry(arabicText, phonetic, englishTranslation, usageContext, category);
      BuildEntry(e.arabicText, e.phonetic, e.englishTranslation, e.usageContext, e.category) == e
  {
  }

  /** handleSubmit's outcome: nothing for an empty main text (and only then), otherwise the built record. */
  function SubmitOutcome(arabicText: string, phonetic: string, englishTranslation: string,
                         usageContext: string, category: Category): (r: Option<ManualEntry>)
    ensures r.None? <==> arabicText == ""
    ensures r.Some? ==> r.value == BuildEntry(arabicText, phonetic, englishTranslation, usageContext, category)
  {
    if arabicText == "" then None
    else Some(BuildEntry(arabicText, phonetic, englishTranslation, usageContext, category))
  }

  /** The check is for emptiness only: a text of spaces is saved as it is. */
  lemma WhitespaceTextAccepted(n: nat, category: Category)
    requires n > 0
    ensures var spaces := seq(n, _ => ' ');
      SubmitOutcome(spaces, "", "", "", category) == Some(ManualEntry(spaces, MissingText, MissingText, DefaultUsageContext, category))
  {
    var spaces := seq(n, _ => ' ');
    assert spaces[0] == ' ';
  }

  /** The form's text inputs. */
  datatype TextField = ArabicTextField | PhoneticField | TranslationField | UsageContextField

  /** The modal's field state, which outlives opening and closing the modal. */
  class Form {
    var arabicText: string
    var phonetic: string
    var englishTranslation: string
    var usageContext: string
    var category: Category

    /** Every text starts empty and the category starts as DAILY. */
    constructor ()
      ensures arabicText == "" && phonetic == "" && englishTranslation == "" && usageContext == ""
      ensures category == DAILY
    {
      arabicText, phonetic, englishTranslation, usageContext := "", "", "", "";
      category := DAILY;
    }

    /** An input's onChange: that one field takes the typed value. */
    method Edit(field: TextField, value: string)
      modifies this`arabicText, this`phonetic, this`englishTranslation, this`usageContext
      ensures arabicText == if field == ArabicTextField then value else old(arabicText)
      ensures phonetic == if field == PhoneticField then value else old(phonetic)
      ensures englishTranslation == if field == TranslationField then value else old(englishTranslation)
      ensures usageContext == if field == UsageContextField then value else old(usageContext)
    {
      match field
      case ArabicTextField => arabicText := value;
      case PhoneticField => phonetic := value;
      case TranslationField => englishTranslation := value;
      case UsageContextField => usageContext := value;
    }

    /** A category button's onClick. */
    method SelectCategory(c: Category)
      modifies this`category
      ensures category == c
    {
      category := c;
    }

    /**
     * handleSubmit: with an empty main text nothing is saved and nothing changes;
     * otherwise the built record is saved and the four texts are reset, while the
     * selected category is kept.
     */
    method Submit() returns (saved: Option<ManualEntry>)
      modifies this`arabicText, this`phonetic, this`englishTranslation, this`usageContext
      ensures saved == SubmitOutcome(old(arabicText), old(phonetic), old(englishTranslation), old(usageContext), category)
      ensures saved.None? ==> unchanged(this)
      ensures saved.Some? ==> arabicText == "" && phonetic == "" && englishTranslation == "" && usageContext == ""
    {
      if arabicText == "" {
        return None;
      }
      saved := Some(BuildEntry(arabicText, phonetic, englishTranslation, usageContext, category));
      arabicText, phonetic, englishTranslation, usageContext := "", "", "", "";
    }
  }
}
