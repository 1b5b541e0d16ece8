/** The shared record types of the application (types.ts). */
module Types {
  import opened Wrappers

  /** The three phrase categories; each enum member's string value equals its name. */
  datatype Category = DAILY | SALES | CONVERSATION

  /** The string value each Category member carries at run time (and in persisted JSON). */
  function CategoryValue(c: Category): (s: string)
    ensures |s| > 0
  {
    match c
    case DAILY => "DAILY"
    case SALES => "SALES"
    case CONVERSATION => "CONVERSATION"
  }

  /** Reads a category back from its string value. */
  function ParseCategory(s: string): Option<Category>
  {
    if s == "DAILY" then Some(DAILY)
    else if s == "SALES" then Some(SALES)
    else if s == "CONVERSATION" then Some(CONVERSATION)
    else None
  }

  /** The string values name the members one to one. */
  lemma CategoryValueRoundTrip(c: Category, s: string)
    ensures ParseCategory(s) == Some(c) <==> s == CategoryValue(c)
  {
    assert "DAILY"[0] != "SALES"[0] && "DAILY"[0] != "CONVERSATION"[0] && "SALES"[0] != "CONVERSATION"[0];
  }

  /** A generated phrase: exactly four string fields. */
  datatype PhraseData = PhraseData(
    arabicText: string,
    phonetic: string,
    englishTranslation: string,
    usageContext: string)

  /** Where a saved phrase came from: the literal union 'generated' | 'manual'. */
  datatype Source = Generated | Manual

  function SourceValue(s: Source): (v: string)
    ensures |v| > 0
  {
    match s
    case Generated => "generated"
    case Manual => "manual"
  }

  function ParseSource(v: string): Option<Source>
  {
    if v == "generated" then Some(Generated)
    else if v == "manual" then Some(Manual)
    else None
  }

  /** The two literals name the two sources one to one. */
  lemma SourceValueRoundTrip(s: Source, v: string)
    ensures ParseSource(v) == Some(s) <==> v == SourceValue(s)
  {
    assert "generated"[0] != "manual"[0];
  }

  /** A library entry: every PhraseData field plus id, timestamp, source and category. */
  datatype SavedPhrase = SavedPhrase(
    arabicText: string,
    phonetic: string,
    englishTranslation: string,
    usageContext: string,
    id: string,
    timestamp: int,
    source: Source,
    category: Category)

  /** The PhraseData part of a saved phrase. */
  function DataOf(p: SavedPhrase): PhraseData
  {
    PhraseData(p.arabicText, p.phonetic, p.englishTranslation, p.usageContext)
  }

  /** `{ ...data, id, timestamp, source, category }`: a saved phrase that extends the given data. */
  function WithData(d: PhraseData, id: string, timestamp: int, source: Source, category: Category): (p: SavedPhrase)
    ensures DataOf(p) == d
    ensures p.id == id && p.timestamp == timestamp && p.source == source && p.category == category
  {
    SavedPhrase(d.arabicText, d.phonetic, d.englishTranslation, d.usageContext, id, timestamp, source, category)
  }
}
