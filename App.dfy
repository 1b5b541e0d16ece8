/**
 * The application component (App.tsx): the generator's status fields, the
 * saved-phrase library with its whole-list persistence, and the handlers that
 * change them. The list transforms are pure functions; the component is a class
 * whose methods apply them.
 */
module App {
  import opened Wrappers
  import opened Types
  import AudioUtils
  import AddPhraseModal
  import LibraryView

  /** The one storage key the whole library is written under. */
  const StorageKey: string := "sudanese_phrases"

  /** The message handleGenerate shows when generation fails. */
  const GenerationErrorMessage: string := "معليش، حصلت مشكلة في الاتصال. حاول تاني."

  /** The alert handlePlayAudio shows when synthesis or playback fails. */
  const AudioErrorMessage: string := "عفواً، الصوت ما شغال حالياً."

  datatype View = Generator | Library

  // ---------------------------------------------------------------------------
  // Ids: the decimal text of a clock reading in milliseconds.

  function DigitChar(d: int): (c: char)
    requires 0 <= d < 10
    ensures '0' <= c <= '9' && c as int - '0' as int == d
  {
    ('0' as int + d) as char
  }

  /** The decimal digits of a natural number, most significant first, without leading zeros. */
  function NatToDecimal(n: nat): (s: string)
    ensures |s| >= 1
    ensures forall k :: 0 <= k < |s| ==> '0' <= s[k] <= '9'
    ensures |s| > 1 ==> s[0] != '0'
    decreases n
  {
    if n < 10 then [DigitChar(n)] else NatToDecimal(n / 10) + [DigitChar(n % 10)]
  }

  /** Number.prototype.toString on an integral number of milliseconds. */
  function DecimalString(n: int): (s: string)
    ensures |s| >= 1
  {
    if n < 0 then "-" + NatToDecimal(-n) else NatToDecimal(n)
  }

  /** The value of a string of decimal digits (a character that is not a digit counts as 0). */
  function ParseDigits(s: string): int
  {
    if s == [] then 0
    else
      var c := s[|s| - 1];
      ParseDigits(s[..|s| - 1]) * 10 + (if '0' <= c <= '9' then c as int - '0' as int else 0)
  }

  /** Reads an id back as the clock reading it came from. */
  function ParseDecimal(s: string): int
  {
    if |s| > 0 && s[0] == '-' then -ParseDigits(s[1..]) else ParseDigits(s)
  }

  lemma {:induction false} ParseNatToDecimal(n: nat)
    ensures ParseDigits(NatToDecimal(n)) == n
    decreases n
  {
    if n >= 10 {
      var s := NatToDecimal(n);
      assert s[..|s| - 1] == NatToDecimal(n / 10);
      ParseNatToDecimal(n / 10);
    }
  }

  /** Round trip: an id parses back to its clock reading. */
  lemma DecimalRoundTrip(n: int)
    ensures ParseDecimal(DecimalString(n)) == n
  {
    if n < 0 {
      var s := DecimalString(n);
      assert s[1..] == NatToDecimal(-n);
      ParseNatToDecimal(-n);
    } else {
      ParseNatToDecimal(n);
    }
  }

  /** Two readings give the same id exactly when they are the same reading. */
  lemma IdsEqualIffReadingsEqual(a: int, b: int)
    ensures DecimalString(a) == DecimalString(b) <==> a == b
  {
    DecimalRoundTrip(a);
    DecimalRoundTrip(b);
  }

  // ---------------------------------------------------------------------------
  // The list transforms.

  /** `{ ...data, id: Date.now().toString(), timestamp: Date.now(), source, category }`, with the two clock reads as parameters. */
  function NewPhrase(d: PhraseData, idReading: int, timestampReading: int, source: Source, category: Category): (p: SavedPhrase)
    ensures DataOf(p) == d
    ensures p.id == DecimalString(idReading)
    ensures ParseDecimal(p.id) == idReading && p.timestamp == timestampReading
    ensures p.source == source && p.category == category
  {
    DecimalRoundTrip(idReading);
    WithData(d, DecimalString(idReading), timestampReading, source, category)
  }

  /** The phrase handleManualAdd builds from the form's record. */
  function ManualPhrase(e: AddPhraseModal.ManualEntry, idReading: int, timestampReading: int): (p: SavedPhrase)
    ensures p.arabicText == e.arabicText && p.phonetic == e.phonetic
    ensures p.englishTranslation == e.englishTranslation && p.usageContext == e.usageContext
    ensures p.category == e.category && p.source == Manual
    ensures p.id == DecimalString(idReading)
    ensures ParseDecimal(p.id) == idReading && p.timestamp == timestampReading
  {
    NewPhrase(PhraseData(e.arabicText, e.phonetic, e.englishTranslation, e.usageContext),
              idReading, timestampReading, Manual, e.category)
  }

  /** Two saves within the same millisecond get the same id: ids are not unique. */
  lemma SameReadingSameId(d1: PhraseData, d2: PhraseData, t: int, t1: int, t2: int,
                          s1: Source, s2: Source, c1: Category, c2: Category)
    ensures NewPhrase(d1, t, t1, s1, c1).id == NewPhrase(d2, t, t2, s2, c2).id
  {
  }

  /** r keeps some of the elements of s, in their order. */
  predicate IsSubsequence(r: seq<SavedPhrase>, s: seq<SavedPhrase>)
    decreases |s|
  {
    if r == [] then true
    else if s == [] then false
    else if r[0] == s[0] then IsSubsequence(r[1..], s[1..])
    else IsSubsequence(r, s[1..])
  }

  /** `prev.filter(p => p.id !== id)`: no entry with that id is left; with none there, nothing changes. */
  function RemoveById(phrases: seq<SavedPhrase>, id: string): (r: seq<SavedPhrase>)
    ensures forall k :: 0 <= k < |r| ==> r[k].id != id
    ensures (forall k :: 0 <= k < |phrases| ==> phrases[k].id != id) ==> r == phrases
  {
    if phrases == [] then []
    else if phrases[0].id == id then RemoveById(phrases[1..], id)
    else [phrases[0]] + RemoveById(phrases[1..], id)
  }

  /** Every other entry stays, as many times as it was there. */
  lemma {:induction false} RemoveByIdKeepsOthers(phrases: seq<SavedPhrase>, id: string)
    ensures forall p :: multiset(RemoveById(phrases, id))[p] == if p.id == id then 0 else multiset(phrases)[p]
  {
    if phrases != [] {
      RemoveByIdKeepsOthers(phrases[1..], id);
      assert phrases == [phrases[0]] + phrases[1..];
    }
  }

  /** The entries that stay keep their original order. */
  lemma {:induction false} RemoveByIdKeepsOrder(phrases: seq<SavedPhrase>, id: string)
    ensures IsSubsequence(RemoveById(phrases, id), phrases)
  {
    if phrases != [] {
      RemoveByIdKeepsOrder(phrases[1..], id);
      if phrases[0].id == id {
        SubsequenceOfTail(RemoveById(phrases[1..], id), phrases);
      } else {
        var r := RemoveById(phrases, id);
        assert r[0] == phrases[0] && r[1..] == RemoveById(phrases[1..], id);
      }
    }
  }

  /** A subsequence of the tail is a subsequence of the whole. */
  lemma SubsequenceOfTail(r: seq<SavedPhrase>, s: seq<SavedPhrase>)
    requires s != [] && IsSubsequence(r, s[1..])
    ensures IsSubsequence(r, s)
    decreases |s| + |r|
  {
    if r != [] && r[0] == s[0] {
      SubsequenceDropFirst(r, s[1..]);
    }
  }

  /** Dropping the first element of a subsequence keeps it a subsequence. */
  lemma SubsequenceDropFirst(r: seq<SavedPhrase>, t: seq<SavedPhrase>)
    requires r != [] && IsSubsequence(r, t)
    ensures IsSubsequence(r[1..], t)
    decreases |t| + |r|
  {
    if r[0] == t[0] {
      if r[1..] != [] {
        SubsequenceOfTail(r[1..], t);
      }
    } else {
      SubsequenceDropFirst(r, t[1..]);
      if r[1..] != [] {
        SubsequenceOfTail(r[1..], t);
      }
    }
  }

  /** Deleting an id twice is the same as deleting it once. */
  lemma RemoveByIdIdempotent(phrases: seq<SavedPhrase>, id: string)
    ensures RemoveById(RemoveById(phrases, id), id) == RemoveById(phrases, id)
  {
  }

  /** Deleting the phrase just saved restores the list, when no older entry shares its id. */
  lemma RemoveNewestRestores(p: SavedPhrase, phrases: seq<SavedPhrase>)
    requires forall k :: 0 <= k < |phrases| ==> phrases[k].id != p.id
    ensures RemoveById([p] + phrases, p.id) == phrases
  {
    assert ([p] + phrases)[1..] == phrases;
  }

  /** `savedPhrases.some(p => p.arabicText === text)`. */
  function HasArabicText(phrases: seq<SavedPhrase>, text: string): (b: bool)
    ensures b <==> exists k :: 0 <= k < |phrases| && phrases[k].arabicText == text
  {
    if phrases == [] then false
    else if phrases[0].arabicText == text then true
    else
      assert forall k :: 1 <= k < |phrases| ==> phrases[k] == phrases[1..][k - 1];
      HasArabicText(phrases[1..], text)
  }

  /** isCurrentPhraseSaved: there is a current phrase and some entry has its exact text. */
  function IsCurrentPhraseSaved(current: Option<PhraseData>, phrases: seq<SavedPhrase>): bool
  {
    current.Some? && HasArabicText(phrases, current.value.arabicText)
  }

  /** After saving the current phrase, it counts as saved. */
  lemma SavedAfterSave(d: PhraseData, phrases: seq<SavedPhrase>, idReading: int, timestampReading: int, category: Category)
    ensures IsCurrentPhraseSaved(Some(d), [NewPhrase(d, idReading, timestampReading, Generated, category)] + phrases)
  {
  }

  /**
   * The list allows duplicate texts: handleManualAdd does not look for an entry
   * with the same text, so adding one whose text is already saved leaves two
   * entries with that text.
   */
  lemma DuplicateTextsKept(e: AddPhraseModal.ManualEntry, phrases: seq<SavedPhrase>, idReading: int, timestampReading: int)
    requires HasArabicText(phrases, e.arabicText)
    ensures var r := [ManualPhrase(e, idReading, timestampReading)] + phrases;
      && r[0].arabicText == e.arabicText
      && exists j :: 1 <= j < |r| && r[j].arabicText == e.arabicText
  {
    var r := [ManualPhrase(e, idReading, timestampReading)] + phrases;
    var i :| 0 <= i < |phrases| && phrases[i].arabicText == e.arabicText;
    assert r[i + 1] == phrases[i];
  }

  /** Saving a generated phrase adds one to the generated counter and leaves the manual one. */
  lemma CountsAfterSave(p: SavedPhrase, phrases: seq<SavedPhrase>)
    ensures LibraryView.GeneratedCount([p] + phrases) == LibraryView.GeneratedCount(phrases) + (if p.source == Generated then 1 else 0)
    ensures LibraryView.ManualCount([p] + phrases) == LibraryView.ManualCount(phrases) + (if p.source == Manual then 1 else 0)
  {
    assert ([p] + phrases)[1..] == phrases;
  }

  /** The clipboard text of handleCopy: the phrase, a line break, the translation. */
  function CopyText(d: PhraseData): (s: string)
    ensures |s| == |d.arabicText| + |d.englishTranslation| + 1
  {
    d.arabicText + "\n" + d.englishTranslation
  }

  /** The text before the first line break. */
  function FirstLine(s: string): string
  {
    if s == [] || s[0] == '\n' then [] else [s[0]] + FirstLine(s[1..])
  }

  /** The text after the first line break. */
  function AfterFirstLine(s: string): string
  {
    if s == [] then [] else if s[0] == '\n' then s[1..] else AfterFirstLine(s[1..])
  }

  lemma {:induction false} SplitAtLineBreak(a: string, b: string)
    requires forall k :: 0 <= k < |a| ==> a[k] != '\n'
    ensures FirstLine(a + "\n" + b) == a && AfterFirstLine(a + "\n" + b) == b
  {
    if a == [] {
      assert a + "\n" + b == "\n" + b;
    } else {
      assert (a + "\n" + b)[1..] == a[1..] + "\n" + b;
      SplitAtLineBreak(a[1..], b);
    }
  }

  /** The copied text splits back into phrase and translation when the phrase is one line. */
  lemma CopyTextSplits(d: PhraseData)
    requires forall k :: 0 <= k < |d.arabicText| ==> d.arabicText[k] != '\n'
    ensures FirstLine(CopyText(d)) == d.arabicText && AfterFirstLine(CopyText(d)) == d.englishTranslation
  {
    SplitAtLineBreak(d.arabicText, d.englishTranslation);
  }

  // ---------------------------------------------------------------------------
  // Storage and the component.

  /** localStorage, with each value kept as the list it serialises. */
  class LocalStorage {
    var items: map<string, seq<SavedPhrase>>

    constructor (items: map<string, seq<SavedPhrase>>)
      ensures this.items == items
    {
      this.items := items;
    }
  }

  /** The initial library: the stored list, or the empty list when the key is missing. */
  function Load(items: map<string, seq<SavedPhrase>>): (phrases: seq<SavedPhrase>)
    ensures StorageKey !in items ==> phrases == []
  {
    if StorageKey in items then items[StorageKey] else []
  }

  /** Loading after writing the list gives that list back; other keys are left alone. */
  lemma LoadAfterStore(items: map<string, seq<SavedPhrase>>, phrases: seq<SavedPhrase>, other: string)
    requires other != StorageKey
    ensures Load(items[StorageKey := phrases]) == phrases
    ensures other in items <==> other in items[StorageKey := phrases]
    ensures other in items ==> items[StorageKey := phrases][other] == items[other]
  {
  }

  /** What the generator card shows: spinner first, then the error, then the phrase. */
  datatype GeneratorPanel = Spinner | ErrorNotice(message: string) | PhraseCard(phrase: PhraseData) | Blank

  function PanelOf(loading: bool, error: Option<string>, phraseData: Option<PhraseData>): (panel: GeneratorPanel)
    ensures panel == Spinner <==> loading
    ensures panel.ErrorNotice? <==> !loading && error.Some?
    ensures panel.PhraseCard? <==> !loading && error.None? && phraseData.Some?
    ensures panel.ErrorNotice? ==> panel.message == error.value
    ensures panel.PhraseCard? ==> panel.phrase == phraseData.value
  {
    if loading then Spinner
    else if error.Some? then ErrorNotice(error.value)
    else if phraseData.Some? then PhraseCard(phraseData.value)
    else Blank
  }

  /** What happened to a play request. */
  datatype PlayOutcome = Skipped | Played | Alerted(message: string)

  class App {
    var view: View
    var activeCategory: Category
    var phraseData: Option<PhraseData>
    var loading: bool
    var audioLoading: bool
    var error: Option<string>
    var savedPhrases: seq<SavedPhrase>
    var isAddModalOpen: bool
    const storage: LocalStorage

    /** The stored list is always the in-memory list. */
    ghost predicate Valid()
      reads this, storage
    {
      StorageKey in storage.items && storage.items[StorageKey] == savedPhrases
    }

    /** Mount: load the list, then the persistence effect writes it back. */
    constructor (storage: LocalStorage)
      modifies storage
      ensures this.storage == storage && Valid()
      ensures savedPhrases == Load(old(storage.items))
      ensures storage.items == old(storage.items)[StorageKey := savedPhrases]
      ensures view == Generator && activeCategory == DAILY && phraseData == None
      ensures !loading && !audioLoading && error == None && !isAddModalOpen
    {
      this.storage := storage;
      view := Generator;
      activeCategory := DAILY;
      phraseData := None;
      loading := false;
      audioLoading := false;
      error := None;
      savedPhrases := Load(storage.items);
      isAddModalOpen := false;
      new;
      storage.items := storage.items[StorageKey := savedPhrases];
    }

    /** The persistence effect: the whole list, rewritten under the one key. */
    method Persist()
      modifies storage`items
      ensures Valid()
      ensures storage.items == old(storage.items)[StorageKey := savedPhrases]
    {
      storage.items := storage.items[StorageKey := savedPhrases];
    }

    /** isCurrentPhraseSaved for the current state. */
    function CurrentPhraseSaved(): (b: bool)
      reads this
      ensures b <==> phraseData.Some? && exists k :: 0 <= k < |savedPhrases| && savedPhrases[k].arabicText == phraseData.value.arabicText
    {
      IsCurrentPhraseSaved(phraseData, savedPhrases)
    }

    /** The generator card for the current state. */
    function Panel(): GeneratorPanel
      reads this
    {
      PanelOf(loading, error, phraseData)
    }

    /** The navigation buttons. */
    method SetView(v: View)
      modifies this`view
      ensures view == v
    {
      view := v;
    }

    /** handleGenerate up to the request: set loading, clear the error; the request is for the given category. */
    method StartGenerate(category: Category) returns (request: Category)
      modifies this`loading, this`error
      ensures loading && error == None && request == category
    {
      loading := true;
      error := None;
      request := category;
    }

    /**
     * handleGenerate after the request settles: a result replaces the phrase, a
     * failure sets the message and keeps the phrase; loading ends either way.
     */
    method FinishGenerate(response: Option<PhraseData>)
      modifies this`loading, this`error, this`phraseData
      ensures !loading
      ensures response.Some? ==> phraseData == response && error == old(error)
      ensures response.None? ==> phraseData == old(phraseData) && error == Some(GenerationErrorMessage)
    {
      if response.Some? {
        phraseData := response;
      } else {
        error := Some(GenerationErrorMessage);
      }
      loading := false;
    }

    /** A category tab: make it active and generate for it. */
    method SelectCategory(c: Category) returns (request: Category)
      modifies this`activeCategory, this`loading, this`error
      ensures activeCategory == c && loading && error == None && request == c
    {
      activeCategory := c;
      request := StartGenerate(c);
    }

    /** The footer button and the retry link: generate for the active category. */
    method Regenerate() returns (request: Category)
      modifies this`loading, this`error
      ensures loading && error == None && request == activeCategory
    {
      request := StartGenerate(activeCategory);
    }

    /** One whole generation: the card ends up showing the new phrase, or the error with the old phrase kept. */
    method GenerateRound(response: Option<PhraseData>)
      modifies this`loading, this`error, this`phraseData
      ensures response.Some? ==> Panel() == PhraseCard(response.value)
      ensures response.None? ==> Panel() == ErrorNotice(GenerationErrorMessage) && phraseData == old(phraseData)
    {
      var _ := Regenerate();
      FinishGenerate(response);
    }

    /**
     * handleSavePhrase: without a current phrase nothing happens; otherwise a
     * generated entry for the active category goes in front of the list, and the
     * list is persisted.
     */
    method SavePhrase(idReading: int, timestampReading: int)
      requires Valid()
      modifies this`savedPhrases, storage`items
      ensures Valid()
      ensures phraseData.None? ==> savedPhrases == old(savedPhrases)
      ensures phraseData.Some? ==>
        savedPhrases == [NewPhrase(phraseData.value, idReading, timestampReading, Generated, activeCategory)] + old(savedPhrases)
      ensures storage.items == old(storage.items)[StorageKey := savedPhrases]
    {
      if phraseData.None? {
        return;
      }
      var newPhrase := NewPhrase(phraseData.value, idReading, timestampReading, Generated, activeCategory);
      savedPhrases := [newPhrase] + savedPhrases;
      Persist();
    }

    /** handleManualAdd: a manual entry goes in front of the list, which is persisted, and the library is shown. */
    method ManualAdd(entry: AddPhraseModal.ManualEntry, idReading: int, timestampReading: int)
      requires Valid()
      modifies this`savedPhrases, this`view, storage`items
      ensures Valid()
      ensures savedPhrases == [ManualPhrase(entry, idReading, timestampReading)] + old(savedPhrases)
      ensures view == Library
      ensures storage.items == old(storage.items)[StorageKey := savedPhrases]
    {
      savedPhrases := [ManualPhrase(entry, idReading, timestampReading)] + savedPhrases;
      Persist();
      view := Library;
    }

    /** handleDeletePhrase: drop every entry with the id and persist. */
    method DeletePhrase(id: string)
      requires Valid()
      modifies this`savedPhrases, storage`items
      ensures Valid()
      ensures savedPhrases == RemoveById(old(savedPhrases), id)
      ensures storage.items == old(storage.items)[StorageKey := savedPhrases]
    {
      savedPhrases := RemoveById(savedPhrases, id);
      Persist();
    }

    /** handleCopy: the clipboard text, when there is a phrase. */
    method Copy() returns (clipboard: Option<string>)
      ensures clipboard.None? <==> phraseData.None?
      ensures clipboard.Some? ==> clipboard.value == CopyText(phraseData.value)
    {
      if phraseData.Some? {
        clipboard := Some(CopyText(phraseData.value));
      } else {
        clipboard := None;
      }
    }

    /**
     * handlePlayAudio: nothing without a phrase with a non-empty text; otherwise
     * synthesise that text, decode and play it, alert on any failure, and end
     * with audioLoading cleared.
     */
    method PlayAudio(synthesize: string -> Option<string>) returns (outcome: PlayOutcome)
      modifies this`audioLoading
      ensures phraseData.None? || phraseData.value.arabicText == "" ==>
        outcome == Skipped && audioLoading == old(audioLoading)
      ensures phraseData.Some? && phraseData.value.arabicText != "" ==> !audioLoading && outcome != Skipped
      ensures phraseData.Some? && phraseData.value.arabicText != "" ==>
        (outcome == Played <==>
          synthesize(phraseData.value.arabicText).Some? &&
          AudioUtils.DecodeBase64Pcm(synthesize(phraseData.value.arabicText).value, AudioUtils.DefaultChannels).Success?)
      ensures outcome.Alerted? ==> outcome.message == AudioErrorMessage
    {
      if phraseData.None? || phraseData.value.arabicText == "" {
        return Skipped;
      }
      audioLoading := true;
      var audioBase64 := synthesize(phraseData.value.arabicText);
      if audioBase64.None? {
        outcome := Alerted(AudioErrorMessage);
      } else {
        var ctx, played := AudioUtils.PlayBase64Audio(audioBase64.value, AudioUtils.Running);
        outcome := if played.Success? then Played else Alerted(AudioErrorMessage);
      }
      audioLoading := false;
    }

    method OpenAddModal()
      modifies this`isAddModalOpen
      ensures isAddModalOpen
    {
      isAddModalOpen := true;
    }

    method CloseAddModal()
      modifies this`isAddModalOpen
      ensures !isAddModalOpen
    {
      isAddModalOpen := false;
    }

    /**
     * Submitting the open modal: with an empty main text nothing changes;
     * otherwise the entry is added, the form reset (category kept) and the modal closed.
     */
    method SubmitAddModal(form: AddPhraseModal.Form, idReading: int, timestampReading: int) returns (saved: bool)
      requires Valid() && isAddModalOpen
      modifies form, this`savedPhrases, this`view, this`isAddModalOpen, storage`items
      ensures Valid()
      ensures saved <==> old(form.arabicText) != ""
      ensures !saved ==> savedPhrases == old(savedPhrases) && view == old(view) && isAddModalOpen && unchanged(form)
      ensures saved ==>
        && savedPhrases == [ManualPhrase(
             AddPhraseModal.BuildEntry(old(form.arabicText), old(form.phonetic), old(form.englishTranslation),
                                       old(form.usageContext), old(form.category)),
             idReading, timestampReading)] + old(savedPhrases)
        && view == Library && !isAddModalOpen
        && form.arabicText == "" && form.phonetic == "" && form.englishTranslation == "" && form.usageContext == ""
        && form.category == old(form.category)
      ensures storage.items == old(storage.items)[StorageKey := savedPhrases]
    {
      var entry := form.Submit();
      if entry.None? {
        saved := false;
        return;
      }
      ManualAdd(entry.value, idReading, timestampReading);
      CloseAddModal();
      saved := true;
    }
  }

  /** Restarting the application reloads exactly the list it held at its last change. */
  method Restart(app: App) returns (next: App)
    requires app.Valid()
    modifies app.storage
    ensures next.savedPhrases == app.savedPhrases && next.storage == app.storage && next.Valid()
    ensures app.storage.items == old(app.storage.items)
  {
    next := new App(app.storage);
  }
}
