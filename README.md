# Sudanese phrase generator — verified model of its core

The application generates Sudanese-Arabic phrases through a generative-language
service, plays a synthesised pronunciation, and keeps a personal library of
phrases (generated or typed in) in the browser's `localStorage`. This project
models, in Dafny, the parts of it that carry real logic:

- **PCM decode path** (`services/audioUtils.ts`): `atob` as the WHATWG
  forgiving-base64 decode (section 4 of RFC 4648 plus the Infra standard's
  whitespace and padding rules), the copy of the binary string into a byte
  array, the little-endian 16-bit view with its odd-length error, the split of
  interleaved samples into per-channel arrays, and the guard that closes the
  audio context only when it is not closed yet. A reference base64 encoder and
  sample writer are the partners of the decoders; the round trips are proved.
- **Library and generator state** (`App.tsx`): a class `App.App` with the
  component's state fields, an abstract key-value store `App.LocalStorage`, and
  handlers that prepend, filter and persist the saved-phrase list, drive the
  `loading` / `error` / `phraseData` status, build the copy text and guard
  audio playback. Clock readings are parameters.
- **Export rows and counters** (`components/LibraryView.tsx`): the seven-column
  export row per phrase, the two category-label definitions, the source label,
  and the generated/manual counters.
- **Manual entry** (`components/AddPhraseModal.tsx`): a class `AddPhraseModal.Form`
  with the form's fields, the empty-text check, the defaults, and the reset that
  keeps the category.
- **Types** (`types.ts`): `Category`, `PhraseData`, `SavedPhrase`, `Source`.

Files: `Wrappers.dfy`, `Types.dfy`, `Base64.dfy`, `AudioUtils.dfy`,
`LibraryView.dfy`, `AddPhraseModal.dfy`, `App.dfy`; verify them together.

Behaviour of the code worth noting:

- Ids are `Date.now().toString()`; two saves in the same millisecond get the
  same id (`App.SameReadingSameId`), so ids are not unique. Ids are equal
  exactly when the clock readings are (`App.IdsEqualIffReadingsEqual`).
- The stored list is read with an unguarded `JSON.parse` (App.tsx:37); a corrupt
  value is not recovered as an empty list. The model's store holds the list
  itself, so this case does not arise in it.
- `playBase64Audio` creates the audio context before decoding; when decoding
  fails the context is left open, not released (`AudioUtils.PlayBase64Audio`
  ensures the context's state is unchanged on every path).
- A frame count that is not whole is not an error: `createBuffer` truncates the
  length and writes past the end of a channel array are dropped, so each channel
  gets `floor(n / numChannels)` frames; the model computes exactly those.
- `createBuffer` (Web Audio API) throws NotSupportedError for zero channels or a
  zero length, so an empty audio payload fails; the model returns
  `BufferNotSupported` there.

## Model

| member | source | states |
|---|---|---|
| Types.CategoryValueRoundTrip | types.ts:1-5 | each category's string value is its name, and a string reads back as a category exactly when it is that category's value |
| Types.SourceValueRoundTrip | types.ts:17 | the source is one of exactly the two literals 'generated' and 'manual', one to one |
| Types.WithData | types.ts:7-19 | a saved phrase carries all four PhraseData fields unchanged plus id, timestamp, source and category |
| Base64.CharOf | services/audioUtils.ts:5 | the base64 alphabet maps each 6-bit value to a character whose value it is |
| Base64.CharOfSextetOf | services/audioUtils.ts:5 | every alphabet character is the character of its own value (the alphabet is a bijection) |
| Base64.StripWhitespace | services/audioUtils.ts:5 | removing ASCII whitespace leaves no whitespace, keeps every other character and adds none |
| Base64.StripWhitespaceConcat | services/audioUtils.ts:5 | whitespace removal distributes over concatenation |
| Base64.StripWhitespaceNone | services/audioUtils.ts:5 | a string without whitespace is unchanged |
| Base64.StripPadding | services/audioUtils.ts:5 | when the length is a multiple of four, two trailing '=' are removed, else one trailing '='; in every other case the text is unchanged; only '=' at the end is ever removed |
| Base64.DecodeChars | services/audioUtils.ts:5 | decoding d alphabet characters yields exactly floor(3d/4) octets |
| Base64.ForgivingDecode | services/audioUtils.ts:5 | decoding fails exactly when the normalised text has length 4k+1 or a non-alphabet character; on success the octet count is three quarters of its length |
| Base64.Atob | services/audioUtils.ts:5 | atob succeeds exactly when the forgiving decode does, and character k of its result has code equal to octet k |
| Base64.RejectsForeignCharacter | services/audioUtils.ts:5 | any character that is not whitespace, alphabet or '=' makes atob throw |
| Base64.IgnoresWhitespace | services/audioUtils.ts:5 | inserting whitespace anywhere does not change the decoded result |
| Base64.EncodeUnpadded | services/audioUtils.ts:5 | the reference encoder emits only alphabet characters, four per three octets plus 2 or 3 for a final partial group |
| Base64.Encode | services/audioUtils.ts:5 | the padded reference encoding is a multiple of four characters long |
| Base64.DecodeEncodeUnpadded | services/audioUtils.ts:5 | decoding the unpadded encoding of any octets gives those octets back |
| Base64.NormalizeEncode | services/audioUtils.ts:5 | stripping whitespace and padding from an encoding leaves exactly its alphabet characters |
| Base64.DecodeEncode | services/audioUtils.ts:5 | round trip: atob's decoder recovers every octet string from its base64 encoding |
| AudioUtils.Decode | services/audioUtils.ts:4-12 | decode fails exactly when atob does; otherwise it returns a new array as long as the binary string whose element k is the code of character k, i.e. the decoded octets |
| AudioUtils.Int16At | services/audioUtils.ts:23 | a little-endian pair of octets is read as a signed 16-bit value in -32768..32767 |
| AudioUtils.Int16RoundTrip | services/audioUtils.ts:23 | reading and writing a 16-bit sample as two octets are inverse both ways |
| AudioUtils.Int16View | services/audioUtils.ts:23 | the 16-bit view exists exactly for an even octet count (otherwise RangeError) and has half as many samples as octets |
| AudioUtils.SamplesToOctets | services/audioUtils.ts:23 | the writer puts sample k in octets 2k and 2k+1, two octets per sample |
| AudioUtils.Int16ViewOfOctets | services/audioUtils.ts:23 | the 16-bit view reads back exactly the samples written |
| AudioUtils.OctetsOfInt16View | services/audioUtils.ts:23 | writing back the samples of the view gives the original octets |
| AudioUtils.FrameIndexInBounds | services/audioUtils.ts:24-31 | with frameCount = n / numChannels every index i*numChannels+c the loop reads is below n |
| AudioUtils.Deinterleave | services/audioUtils.ts:24-33 | there are numChannels channels and each has exactly n / numChannels frames |
| AudioUtils.DeinterleaveAt | services/audioUtils.ts:27-33 | frame i of channel c is interleaved sample i*numChannels+c |
| AudioUtils.Interleave | services/audioUtils.ts:27-33 | interleaving f frames of k channels gives f*k samples |
| AudioUtils.InterleaveDeinterleave | services/audioUtils.ts:24-33 | interleaving the channels again gives the samples up to the last whole frame: the remainder is dropped, nothing else is lost |
| AudioUtils.MonoDeinterleave | services/audioUtils.ts:24-33 | with the default single channel, channel 0 is the sample sequence unchanged |
| AudioUtils.DecodePcm | services/audioUtils.ts:17-35 | decodeAudioData fails exactly for an odd octet count (OddByteLength) or zero channels or zero frames (BufferNotSupported) |
| AudioUtils.AudioBuffer.constructor | services/audioUtils.ts:25 | createBuffer gives a new zero-filled numChannels by frameCount buffer at the given rate |
| AudioUtils.ChannelsOf | services/audioUtils.ts:28 | the channel view of a buffer has one sequence per channel, each of the buffer's length |
| AudioUtils.DecodeAudioData | services/audioUtils.ts:17-35 | fails exactly as DecodePcm says; otherwise a new buffer with the given rate, numChannels channels of n / numChannels frames, equal to Deinterleave of the 16-bit view |
| AudioUtils.DecodeBase64Pcm | services/audioUtils.ts:46-47 | malformed base64 gives InvalidBase64 and no samples; otherwise the result of decodeAudioData on the decoded octets |
| AudioUtils.PlaysBackEncodedSamples | services/audioUtils.ts:46-47 | any non-empty run of 16-bit samples, written little-endian and base64-encoded, plays back as exactly those samples in one channel |
| AudioUtils.MonoDecodeSucceeds | services/audioUtils.ts:17-35 | with the defaults decoding succeeds exactly for a non-empty even octet count, and the one channel is the 16-bit view |
| AudioUtils.AudioContext.constructor | services/audioUtils.ts:42-44 | a new context has the requested rate, is not closed and has had no close call |
| AudioUtils.AudioContext.Close | services/audioUtils.ts:58 | close() on an open context closes it, one release |
| AudioUtils.AudioContext.CloseIfNotClosed | services/audioUtils.ts:55-60 | after the guard the context is closed, and close() was issued once if it was open and not at all if it was closed |
| AudioUtils.ReleaseTwice | services/audioUtils.ts:55-60 | two racing release callbacks close the context at most once: the guard is idempotent |
| AudioUtils.PlayBase64Audio | services/audioUtils.ts:40-66 | a 24 kHz context is created; the result fails exactly when decoding does, with the same error and no buffer; otherwise a new 24 kHz one-channel buffer whose length is its channel length, holding the decoded channels; the context is not closed on any path |
| LibraryView.ExportLabelIsCategoryLabel | components/LibraryView.tsx:19-37 | the export's ternary label (SALES, DAILY, else CONVERSATION) agrees with getCategoryLabel for all three categories |
| LibraryView.CategoryLabelInjective | components/LibraryView.tsx:30-37 | different categories get different labels |
| LibraryView.SourceLabel | components/LibraryView.tsx:20 | the source label is 'توليد' exactly for a generated phrase and 'يدوي' exactly for a manual one |
| LibraryView.ExportRows | components/LibraryView.tsx:14-22 | one row per phrase in list order; text, phonetic, translation and usage are copied verbatim; category, source and date columns are the labels and the formatted timestamp |
| LibraryView.ExportRowsConcat | components/LibraryView.tsx:14 | exporting a concatenation exports each part in turn |
| LibraryView.SourceCount | components/LibraryView.tsx:48-49 | a filtered count never exceeds the number of phrases |
| LibraryView.CountsPartition | components/LibraryView.tsx:48-49 | generatedCount + manualCount equals the number of phrases |
| LibraryView.SourceCountConcat | components/LibraryView.tsx:48-49 | counts over a concatenation add up |
| LibraryView.Render | components/LibraryView.tsx:51-87 | the empty-state notice shows exactly for an empty list; otherwise the dashboard shows the list length, the generated and manual counters (which sum to it) and the export rows of the list |
| LibraryView.ExportOfferedIffNonEmpty | components/LibraryView.tsx:51-86 | the export action is rendered exactly when the list is non-empty |
| AddPhraseModal.BuildEntry | components/AddPhraseModal.tsx:24-30 | main text and category pass through; an empty phonetic or translation becomes '---', an empty usage context 'Custom phrase', non-empty values pass through; no field of the result is empty |
| AddPhraseModal.BuildEntryIdempotent | components/AddPhraseModal.tsx:26-28 | filling in the defaults again changes nothing |
| AddPhraseModal.SubmitOutcome | components/AddPhraseModal.tsx:22-30 | nothing is saved exactly when the main text is empty; otherwise the built record |
| AddPhraseModal.WhitespaceTextAccepted | components/AddPhraseModal.tsx:22 | a main text of spaces only is accepted and saved as it is |
| AddPhraseModal.Form.constructor | components/AddPhraseModal.tsx:12-16 | the four texts start empty and the category starts as DAILY |
| AddPhraseModal.Form.Edit | components/AddPhraseModal.tsx:60-100 | an input's change sets that one field and leaves the other fields |
| AddPhraseModal.Form.SelectCategory | components/AddPhraseModal.tsx:114 | a category button sets the category only |
| AddPhraseModal.Form.Submit | components/AddPhraseModal.tsx:20-36 | with an empty main text nothing is saved and the form is unchanged; otherwise the built record is saved and the four texts reset to '', the category kept |
| App.NatToDecimal | App.tsx:95 | the decimal text of a reading is non-empty, all digits, without leading zeros |
| App.DecimalString | App.tsx:95 | the id text of a clock reading is non-empty |
| App.ParseNatToDecimal | App.tsx:95 | the digits of a natural number read back as that number |
| App.DecimalRoundTrip | App.tsx:95 | an id reads back as the clock reading it was made from |
| App.IdsEqualIffReadingsEqual | App.tsx:95 | two ids are equal exactly when their clock readings are |
| App.NewPhrase | App.tsx:93-99 | the new entry copies all four text fields, its id is exactly the decimal text of the first reading (which parses back to it), its timestamp the second reading, with the given source and category |
| App.ManualPhrase | App.tsx:104-109 | the manual entry copies the form's four texts and category, with source manual; its id is exactly the decimal text of the first reading and its timestamp the second reading |
| App.SameReadingSameId | App.tsx:93-110 | two phrases created in the same millisecond get the same id |
| App.RemoveById | App.tsx:115-117 | no entry with the deleted id is left; if none had it, the list is unchanged |
| App.RemoveByIdKeepsOthers | App.tsx:116 | every entry with another id stays, as many times as it was there |
| App.RemoveByIdKeepsOrder | App.tsx:116 | the remaining entries keep their original order |
| App.RemoveByIdIdempotent | App.tsx:116 | deleting an id twice is the same as once |
| App.RemoveNewestRestores | App.tsx:115-117 | deleting the entry just prepended restores the list when no older entry shares its id |
| App.HasArabicText | App.tsx:119 | `some` is true exactly when some entry has that exact arabicText |
| App.SavedAfterSave | App.tsx:119 | after saving the current phrase it counts as saved |
| App.DuplicateTextsKept | App.tsx:103-110 | a manual entry whose text is already saved is prepended anyway, so two entries carry that text: the list allows duplicate texts |
| App.CountsAfterSave | App.tsx:100-110 | prepending an entry adds one to the counter of its source and leaves the other |
| App.CopyText | App.tsx:87 | the copy text is as long as phrase plus translation plus one line break |
| App.SplitAtLineBreak | App.tsx:87 | text before the first line break and after it split a + "\n" + b back into a and b when a has no line break |
| App.CopyTextSplits | App.tsx:87 | the copy text splits back into the phrase and the translation when the phrase is one line |
| App.LocalStorage.constructor | App.tsx:36 | the store starts with the given items |
| App.Load | App.tsx:35-38 | a missing key loads as the empty list |
| App.LoadAfterStore | App.tsx:35-44 | loading after a write returns the written list; other keys are untouched |
| App.PanelOf | App.tsx:196-283 | the card shows the spinner exactly while loading, else the error exactly when set, else the phrase when there is one |
| App.App.constructor | App.tsx:25-44 | on mount the list is the stored one (empty when missing) and is written back under 'sudanese_phrases'; view generator, category DAILY, no phrase, not loading, no error, modal closed |
| App.App.Persist | App.tsx:42-44 | the whole list is rewritten under the one key; nothing else in the store changes |
| App.App.CurrentPhraseSaved | App.tsx:119 | true exactly when there is a current phrase and some saved entry has its identical arabicText |
| App.App.SetView | App.tsx:133-141 | the navigation buttons set the view |
| App.App.StartGenerate | App.tsx:47-51 | generation starts with loading set and the error cleared, requesting the given category |
| App.App.FinishGenerate | App.tsx:52-58 | a result replaces the phrase; a failure sets the message and keeps the phrase; loading is false either way |
| App.App.SelectCategory | App.tsx:165-185 | a category tab makes that category active and starts generation for it |
| App.App.Regenerate | App.tsx:289 | the footer and retry buttons generate for the active category |
| App.App.GenerateRound | App.tsx:47-59 | after a whole generation the card shows the new phrase, or the error message with the previous phrase kept |
| App.App.SavePhrase | App.tsx:91-101 | without a current phrase nothing changes; otherwise a generated entry for the active category is prepended to the unchanged list, which is persisted |
| App.App.ManualAdd | App.tsx:103-113 | a manual entry with the form's category is prepended to the unchanged list, which is persisted, and the view becomes the library |
| App.App.DeletePhrase | App.tsx:115-117 | the list becomes the filtered list and is persisted |
| App.App.Copy | App.tsx:85-89 | with a phrase the clipboard text is the copy text; without one nothing is copied |
| App.App.PlayAudio | App.tsx:69-82 | without a phrase or with an empty text nothing happens; otherwise the phrase text is synthesised and played, success exactly when synthesis returns audio that decodes, an alert otherwise, and audioLoading ends false |
| App.App.OpenAddModal | App.tsx:315 | the add button opens the modal |
| App.App.CloseAddModal | App.tsx:330 | onClose closes the modal |
| App.App.SubmitAddModal | App.tsx:328-332 | an empty main text changes nothing; otherwise the built manual entry is prepended and persisted, the library shown, the form reset with its category kept, and the modal closed |
| App.Restart | App.tsx:35-44 | reloading after any sequence of changes gives exactly the list held at the last change |

## Left out

- `services/geminiService.ts` (phrase generation and speech synthesis): a call to an outside service. Its answers are parameters: `FinishGenerate` takes the response or its absence, and `PlayAudio` takes the synthesiser as a function from text to optional base64 audio.
- Web Audio plumbing: creating the buffer source, `connect`, `start(0)`, the `onended` event and the 1000 ms timer. This is engine lifecycle and timing. `AudioContext.CloseIfNotClosed` is the timer's body. Failure to create a context is not modelled.
- AudioUtils.AudioContext.CloseIfNotClosed: treats close() as taking effect at once. The engine updates the `state` attribute asynchronously, and that ordering is not captured.
- The division of each sample by 32768.0: floating point. Channel arrays hold the 16-bit integers.
- createBuffer's implementation-defined limits (the largest channel count, the sample-rate range): not modelled. The only caller passes 1 channel at 24000 Hz. The channel count is a natural number, so negative or fractional counts do not arise.
- XLSX sheet and file writing, the sheet name, the file name and the right-to-left flag: library behaviour. `ExportColumns` names the header cells.
- `toLocaleDateString('ar-SD')`: locale behaviour. The export takes the formatter as a parameter.
- JSON serialisation of the stored list and the unguarded `JSON.parse`: the store holds the list itself. A stored empty string (which `JSON.stringify` never writes) is not modelled.
- Clipboard, `navigator.share`, `console` and the display of `alert`: browser I/O. `PlayAudio` returns the alert text instead.
- The mount-time auto-generate effect, overlapping generations and stale results: concurrency. Each handler is one atomic method, and the persistence effect runs inside the handler that changed the list.
- The `disabled` guards on the play button (App.tsx:244), the save button (App.tsx:253) and the footer generate button (App.tsx:290): the model's handlers may be called in any state. So the model does not capture three things the running app prevents: saving a generated phrase whose text is already saved, a second footer generation while one is loading, and a second playback while audio is loading. In the app, duplicate texts arise only through manual add.
- The gating of the generator card (App.tsx:196-283): the app renders the play, save, copy and share buttons only while the card shows a phrase, that is, when nothing is loading and the last generation did not fail. The model's `App.App.PlayAudio`, `App.App.SavePhrase` and `App.App.Copy` may also be called while the spinner or the error notice shows. So the model admits runs the app does not, for example: generate for one category, switch to another whose generation fails, then save, which files the older phrase under the new category. The model does not capture the app's guarantee that a phrase is saved only under the category it was generated for.
- All JSX, CSS, `getCategoryColor` and `components/TabButton.tsx`: rendering only.
- Extra properties in a generated phrase object, which the spread at App.tsx:94 would copy: `PhraseData` has exactly its four fields.
- Number-to-text in exponent form (1e21 and above): never reached, because time values are at most 8.64e15 in magnitude.
