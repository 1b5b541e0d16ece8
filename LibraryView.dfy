/**
 * The library screen's pure logic (components/LibraryView.tsx): the rows of
 * the spreadsheet export, the category and source labels, and the counters.
 */
module LibraryView {
  import opened Types

  /** The export sheet's column headers, in order: text, phonetic, translation, usage, category, source, date. */
  const ExportColumns: seq<string> := ["النص", "النطق", "الترجمة", "الاستخدام", "التصنيف", "المصدر", "التاريخ"]

  /** One exported row: the seven columns of ExportColumns. */
  datatype ExportRow = ExportRow(
    text: string,
    phonetic: string,
    translation: string,
    usage: string,
    category: string,
    source: string,
    date: string)

  /** The category label the export writes: a chain of two comparisons with a fallback. */
  function ExportCategoryLabel(c: Category): string
  {
    if c == SALES then "مبيعات"
    else if c == DAILY then "يوميات"
    else "ونسة"
  }

  /** getCategoryLabel, the label the cards show: a switch over the enum. */
  function CategoryLabel(c: Category): string
  {
    match c
    case SALES => "مبيعات"
    case CONVERSATION => "ونسة"
    case DAILY => "يوميات"
  }

  /** The two label definitions agree on every category. */
  lemma ExportLabelIsCategoryLabel(c: Category)
    ensures ExportCategoryLabel(c) == CategoryLabel(c)
  {
  }

  /** Different categories get different labels. */
  lemma CategoryLabelInjective(c1: Category, c2: Category)
    ensures CategoryLabel(c1) == CategoryLabel(c2) <==> c1 == c2
  {
    assert "مبيعات"[0] != "يوميات"[0] && "مبيعات"[0] != "ونسة"[0] && "يوميات"[0] != "ونسة"[0];
  }

  /** The source label: one label for a generated phrase, the other for a manual one. */
  function SourceLabel(s: Source): (text: string)
    ensures text == "توليد" <==> s == Generated
    ensures text == "يدوي" <==> s.Manual?
  {
    assert "توليد"[0] != "يدوي"[0];
    if s == Generated then "توليد" else "يدوي"
  }

  /** The row for one phrase; the locale date text is the given formatter's result. */
  function RowOf(p: SavedPhrase, formatDate: int -> string): ExportRow
  {
    ExportRow(p.arabicText, p.phonetic, p.englishTranslation, p.usageContext,
              ExportCategoryLabel(p.category), SourceLabel(p.source), formatDate(p.timestamp))
  }

  /**
   * handleExport's `phrases.map(...)`: one row per phrase, in list order, whose
   * first four columns copy the phrase's text fields verbatim.
   */
  function ExportRows(phrases: seq<SavedPhrase>, formatDate: int -> string): (rows: seq<ExportRow>)
    ensures |rows| == |phrases|
    ensures forall k :: 0 <= k < |rows| ==>
      && rows[k].text == phrases[k].arabicText
      && rows[k].phonetic == phrases[k].phonetic
      && rows[k].translation == phrases[k].englishTranslation
      && rows[k].usage == phrases[k].usageContext
      && rows[k].category == CategoryLabel(phrases[k].category)
      && rows[k].source == SourceLabel(phrases[k].source)
      && rows[k].date == formatDate(phrases[k].timestamp)
  {
    if phrases == [] then []
    else
      ExportLabelIsCategoryLabel(phrases[0].category);
      [RowOf(phrases[0], formatDate)] + ExportRows(phrases[1..], formatDate)
  }

  /** Exporting a concatenation exports each part in turn. */
  lemma {:induction false} ExportRowsConcat(a: seq<SavedPhrase>, b: seq<SavedPhrase>, formatDate: int -> string)
    ensures ExportRows(a + b, formatDate) == ExportRows(a, formatDate) + ExportRows(b, formatDate)
  {
    if a == [] {
      assert a + b == b;
    } else {
      assert (a + b)[0] == a[0] && (a + b)[1..] == a[1..] + b;
      ExportRowsConcat(a[1..], b, formatDate);
    }
  }

  /** `phrases.filter(p => p.source === s).length`. */
  function SourceCount(phrases: seq<SavedPhrase>, s: Source): (n: nat)
    ensures n <= |phrases|
  {
    if phrases == [] then 0
    else (if phrases[0].source == s then 1 else 0) + SourceCount(phrases[1..], s)
  }

  function GeneratedCount(phrases: seq<SavedPhrase>): nat
  {
    SourceCount(phrases, Generated)
  }

  function ManualCount(phrases: seq<SavedPhrase>): nat
  {
    SourceCount(phrases, Manual)
  }

  /** Every phrase is counted exactly once: the source has exactly two values. */
  lemma {:induction false} CountsPartition(phrases: seq<SavedPhrase>)
    ensures GeneratedCount(phrases) + ManualCount(phrases) == |phrases|
  {
    if phrases != [] {
      CountsPartition(phrases[1..]);
    }
  }

  /** Counting over a concatenation adds the counts of the parts. */
  lemma {:induction false} SourceCountConcat(a: seq<SavedPhrase>, b: seq<SavedPhrase>, s: Source)
    ensures SourceCount(a + b, s) == SourceCount(a, s) + SourceCount(b, s)
  {
    if a == [] {
      assert a + b == b;
    } else {
      assert (a + b)[0] == a[0] && (a + b)[1..] == a[1..] + b;
      SourceCountConcat(a[1..], b, s);
    }
  }

  /** What the library screen shows: an empty-state notice, or the dashboard with its counters and the export action. */
  datatype LibraryScreen =
    | EmptyState
    | Dashboard(total: nat, generated: nat, manual: nat, exportRows: seq<ExportRow>)

  function Render(phrases: seq<SavedPhrase>, formatDate: int -> string): (screen: LibraryScreen)
    ensures screen.EmptyState? <==> |phrases| == 0
    ensures screen.Dashboard? ==>
      && screen.total == |phrases|
      && screen.generated + screen.manual == screen.total
      && |screen.exportRows| == |phrases|
    ensures screen.Dashboard? ==>
      && screen.generated == GeneratedCount(phrases)
      && screen.manual == ManualCount(phrases)
      && screen.exportRows == ExportRows(phrases, formatDate)
  {
    if |phrases| == 0 then EmptyState
    else
      CountsPartition(phrases);
      Dashboard(|phrases|, GeneratedCount(phrases), ManualCount(phrases), ExportRows(phrases, formatDate))
  }

  /** The export action is offered exactly when the list is not empty. */
  predicate ExportOffered(screen: LibraryScreen)
  {
    screen.Dashboard?
  }

  /** The export action is rendered exactly for a non-empty library. */
  lemma ExportOfferedIffNonEmpty(phrases: seq<SavedPhrase>, formatDate: int -> string)
    ensures ExportOffered(Render(phrases, formatDate)) <==> phrases != []
  {
  }
}
