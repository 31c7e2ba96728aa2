# neoPDF2Muse: MusicXML builder and page merger, in Dafny

This project models the two parts of neoPDF2Muse that produce MusicXML.

- **The builder** (`xml_generator.py`) turns recognised staffs into a `score-partwise` element tree.
  - Each staff is a list of measures. Each measure is a list of clef, time signature and chord symbols.
  - The tree holds the work title, the page defaults and the part-list roster, then one `part` per staff, with its measures numbered from 1.
- **The merger** (`join_musicxml_files` in `musicxml_utils.py`) joins the documents of several pages.
  - It picks the `.musicxml` files of a directory in sorted name order.
  - It merges their `score-part` entries into the first page's part-list; the first entry with a given id is kept.
  - It keeps one `part` per id; the last one met wins.
  - It re-attaches those parts to the first page in ascending id order.

The modules are:

- `Wrappers`: `Option` and `Result`.
- `XmlTree`: an `Element` datatype that stands in for both the `musicxml` element classes and ElementTree elements. An element has a tag, attributes, a value and children in insertion order.
- `Strings`: Python's `str` of an int, string order, `sorted`, `sorted(set(...))`, `str.lower` and `str.endswith`.
- `Notation`: the recognition results (`ResultStaff`, `ResultMeasure`, `ResultChord`, `ResultNote`, `ResultClef`, `ResultTimeSignature`) as datatypes.
- `XmlGenerator`: the builder.
  - The builder works in two styles, as the source does.
  - The pure parts are functions: ids, the roster entry, notes, rests, the tempo direction.
  - The loops are methods proved against those functions: the roster, the note group, the measure's symbol loop, the part's measure loop and the document's staff loop.
  - A measure that is changed in place (`build_or_get_attributes`, `build_clef`, `build_time_signature`, `add_child`) is a `MeasureNode` class with `number` and `children` fields.
- `MusicXmlUtils`: the merger.
  - `JoinMusicXmlFiles` is the method. It is built from the loops of the source: the page loop, the score-part loop, the part loop, the removal loop and the re-append loop.
  - It is proved equal to the function `Join`. The lemmas state what `Join` promises.

The world outside the program becomes parameters:
- The directory listing is a sequence of names.
- The parsed pages are a map from name to root element; a name missing from the map is a file that does not parse.
- The quarter-note duration constant of the recognition library is the parameter `durationOfQuarter`.

## Model

| member | source | states |
|---|---|---|
| XmlGenerator.BuildWork | xml_generator.py:22-27 | the work element carries the title as its `work-title` child |
| XmlGenerator.BuildDefaults | xml_generator.py:30-46 | defaults are empty unless `large_page` is truthy; then one page layout with page height 300 and page width 110 |
| XmlGenerator.PartId | xml_generator.py:49-50 | the id is "P" followed by digits that read back as `index + 1`, with no leading zero, so the text is exactly `"P" + str(index + 1)` |
| Strings.Lower | musicxml_utils.py:14 | lower-casing keeps the length, leaves no capital letter, turns each capital into the small letter at the same place in the alphabet and keeps every other character |
| Strings.LowerIdempotent | musicxml_utils.py:14 | lower-casing a lower-cased name changes nothing |
| Strings.LowerConcat | musicxml_utils.py:14 | lower-casing a concatenation lower-cases each part on its own |
| XmlGenerator.PartIdInjective | xml_generator.py:49-50 | distinct indices give distinct part ids |
| XmlGenerator.ScorePart | xml_generator.py:57 | a roster entry is a `score-part` carrying the part id |
| XmlGenerator.ScorePartInstrument | xml_generator.py:58-71 | an entry has an empty part name, a piano score instrument and a MIDI instrument, both keyed by the id + "-I1", with channel 1, program 1, volume 100 and pan 0 |
| XmlGenerator.PartListRoster | xml_generator.py:53-73 | the roster of n staffs has exactly n entries; entry k is the entry of `PartId(k)`; no two entries share an id |
| XmlGenerator.BuildPartList | xml_generator.py:53-73 | the loop builds the roster `PartList(staffs)`; a negative count gives an empty roster |
| XmlGenerator.WithAttributes | xml_generator.py:76-82 | an existing first attributes block is returned and the children are unchanged; without one, an empty block is appended and returned; no earlier child is an attributes block |
| XmlGenerator.WithAttributesIdempotent | xml_generator.py:76-82 | asking for the attributes block a second time returns the same block and changes nothing |
| XmlGenerator.WithAttributesSingle | xml_generator.py:76-82 | a measure with at most one attributes block has exactly one afterwards |
| XmlGenerator.MeasureNode.BuildOrGetAttributes | xml_generator.py:76-82 | when the measure has an attributes block, returns the first one and leaves the measure unchanged; otherwise appends a new empty block at the end and returns it |
| XmlGenerator.MeasureNode.AddChild | xml_generator.py:81 | appends one child and changes nothing else |
| XmlGenerator.MeasureNode.BuildClef | xml_generator.py:85-94 | divisions, the key's fifths and the clef's sign and line are appended to the attributes block; no other child changes |
| XmlGenerator.MeasureNode.BuildTimeSignature | xml_generator.py:97-103 | beats and beat-type, as decimal text, are appended to the attributes block; no other child changes |
| XmlGenerator.RestContent | xml_generator.py:106-113 | a rest has one rest mark and no chord marker; the mark says `measure="yes"` exactly when the duration is named "whole"; it carries the duration, the type and staff 1 |
| XmlGenerator.MinOrZero | xml_generator.py:132 | the minimum of a non-empty list, which occurs in it; 0 for an empty list |
| XmlGenerator.PitchContent | xml_generator.py:119-139 | the pitch carries the step, the alteration (0 when absent) and the octave shifted up and clamped at 0, so never negative |
| XmlGenerator.AllOctavesListed | xml_generator.py:129-131 | every note of every non-rest chord of the staffs takes part in the minimum |
| XmlGenerator.AllOctavesExactly | xml_generator.py:129-131 | a value is in the octave list exactly when it is the octave of a note of a non-rest chord of the staffs; rests take no part |
| XmlGenerator.LowestOctave | xml_generator.py:129-132 | the minimum is at most the octave of every note of a non-rest chord and, when there is such a note, is the octave of one of them; with none it is 0 |
| XmlGenerator.TransposedExactly | xml_generator.py:128-134 | with sibling staffs, a note of those staffs moves up by exactly the common shift and is never clamped |
| XmlGenerator.TranspositionKeepsIntervals | xml_generator.py:128-134 | with sibling staffs, the distance between any two of their notes' octaves is kept |
| XmlGenerator.NoteContent | xml_generator.py:115-153 | a note has the chord marker exactly when stacked and never a rest mark; it carries its pitch, type, duration, staff 1 and voice "1"; it has a dot exactly for a dotted duration and a time modification exactly for a triplet |
| XmlGenerator.MaxDuration | xml_generator.py:161 | the largest note duration of a chord with notes, which some note has |
| XmlGenerator.NoteGroupShape | xml_generator.py:155-166 | one note element per model note, in order, the later ones stacked; a backup follows exactly when the chord is shorter than its longest note; chord length plus the backed-up length is that longest note |
| XmlGenerator.NoteGroupNotes | xml_generator.py:155-160 | note k carries note k's pitch and duration, and only the first lacks the chord marker |
| XmlGenerator.StackedChordExample | xml_generator.py:155-166 | a C4 quarter stacked with an E4 eighth in a chord of eighth length gives two notes and a backup of a quarter minus an eighth |
| XmlGenerator.BuildNotes | xml_generator.py:156-160 | the note loop builds one note per model note, in order, stacking all but the first |
| XmlGenerator.BuildNoteGroup | xml_generator.py:155-166 | fails exactly when the chord has no notes (the `max` of an empty list); otherwise gives `NoteGroup` |
| XmlGenerator.ChordElements | xml_generator.py:168-171 | chord output is notes and backups only; a rest gives exactly one element with one rest mark |
| XmlGenerator.BuildChord | xml_generator.py:168-171 | fails exactly when a non-rest chord has no notes; otherwise gives `ChordElements` |
| XmlGenerator.TimeDirection | xml_generator.py:174-176 | a direction is made exactly when the metronome value is truthy (given and non-zero) |
| XmlGenerator.TimeDirectionContent | xml_generator.py:177-190 | the direction beats quarters at the metronome value; its sound plays at the tempo when that is truthy, at the metronome value otherwise |
| XmlGenerator.PrintElement | xml_generator.py:203 | the system break is a `print` with `new-system="yes"` |
| XmlGenerator.MeasureHeader | xml_generator.py:196-203 | what precedes the symbols is only directions and system breaks |
| XmlGenerator.FirstAttributeSymbol | xml_generator.py:204-210 | finds the first clef or time signature, or reports that there is none |
| XmlGenerator.WriteAttributesNew | xml_generator.py:76-82 | writing into a measure without an attributes block appends a new block holding the items |
| XmlGenerator.AddSymbol | xml_generator.py:204-213 | one turn of the symbol loop: a clef or time signature writes into the attributes block; a chord appends its elements; it fails exactly on a chord that cannot be built |
| XmlGenerator.MeasureStep | xml_generator.py:204-213 | one more symbol extends the measure's layout as `AddSymbol` does |
| XmlGenerator.AddSymbols | xml_generator.py:204-213 | the symbol loop succeeds exactly when every chord can be built, and then appends `MeasureBody` |
| XmlGenerator.BuildMeasure | xml_generator.py:193-214 | builds `MeasureResult`: the measure numbered by the decimal of its number, or the error of its first chord that cannot be built |
| XmlGenerator.MeasureElement | xml_generator.py:196 | a measure element carries exactly its number as decimal text |
| XmlGenerator.LayoutContent | xml_generator.py:204-213 | without the attributes block the body is exactly the chord elements; the block is alone and holds every clef and time item |
| XmlGenerator.MeasureBodyContent | xml_generator.py:204-213 | without the attributes block a body is the chords in symbol order; the block is there exactly when a clef or time signature occurs, and holds what all of them wrote, in order; the body has no direction and no system break |
| XmlGenerator.MeasureContent | xml_generator.py:193-214 | at most one attributes block, and one exactly when a clef or time signature occurs; a direction exactly in measure 1 of the first part with a truthy metronome, and then first; a system break exactly on a new line other than measure 1 |
| XmlGenerator.NumberedMeasuresStep | xml_generator.py:221-225 | one more measure is appended with the next number |
| XmlGenerator.PartElement | xml_generator.py:220 | a part carries exactly the id `PartId(index)` and one child per staff measure |
| XmlGenerator.BuildPart | xml_generator.py:217-226 | builds `PartResult`: fails exactly when one of the measures cannot be built |
| XmlGenerator.PartContent | xml_generator.py:217-226 | the measure at position k is staff measure k built as number k + 1 and carries the number "k+1"; the numbers are pairwise distinct |
| XmlGenerator.PartMeasureMarks | xml_generator.py:197-224 | in part `index`, only measure 1 of part 0 gets the direction, and only when the metronome is truthy; a system break goes on every flagged line except measure 1 |
| XmlGenerator.PartsStep | xml_generator.py:236-237 | one more staff appends its part with the next index |
| XmlGenerator.PartsAt | xml_generator.py:236-237 | one part per staff; the part at i is staff i built as part i |
| XmlGenerator.Document | xml_generator.py:232-237 | the root is `score-partwise` with three head children and one part per staff |
| XmlGenerator.GenerateXml | xml_generator.py:229-238 | builds `GenerateResult`: fails exactly when one of the staffs cannot be built |
| XmlGenerator.DocumentStructure | xml_generator.py:229-238 | the work with the title, the defaults and the roster of as many entries as staffs, then part i built from staff i |
| XmlGenerator.DocumentPartIds | xml_generator.py:220-237 | part i carries the id of roster entry i, and no two parts share an id |
| XmlGenerator.DocumentTempoOnce | xml_generator.py:198-222 | in the whole document, the time direction occurs only in measure 1 of the first part, and there exactly when the metronome is truthy |
| MusicXmlUtils.Filter | musicxml_utils.py:14 | keeps exactly the names that end in ".musicxml" in any letter case |
| MusicXmlUtils.SelectFilesExact | musicxml_utils.py:14 | the selection is ascending and holds each listed name ending in ".musicxml", in any letter case, as often as it is listed, and no other name |
| MusicXmlUtils.FilterCounts | musicxml_utils.py:14 | the filter keeps each matching name as often as it is listed and drops every other name |
| MusicXmlUtils.DemoFiles | musicxml_utils.py:71-74 | "page1.musicxml" is selected before "page2.musicxml" |
| MusicXmlUtils.IdsOf | musicxml_utils.py:25-42 | the ids of elements, one per element, in order |
| MusicXmlUtils.MergeScorePartsInto | musicxml_utils.py:34-38 | the score-part loop gives `MergeScoreParts` |
| MusicXmlUtils.MergeScorePartsFacts | musicxml_utils.py:24-38 | the merge is the old entries followed by `FirstNew`: the page's score-parts that are first with an id not yet listed, in the order met; so no id is added twice or again, and afterwards every id of the page is listed |
| MusicXmlUtils.MergeScorePartsFirstNew | musicxml_utils.py:34-38 | the merge appends exactly `FirstNew(cs, sps)`, which is defined from the old entries and the page alone |
| MusicXmlUtils.ListedFirstNew | musicxml_utils.py:37 | after the merge an id is listed exactly when it was listed before or a score-part of the page carries it |
| MusicXmlUtils.FirstScorePartKept | musicxml_utils.py:34-38 | of two score-parts with the same id, the first one met is kept |
| MusicXmlUtils.MergeScorePartsConcat | musicxml_utils.py:28-38 | merging page after page is merging all their score-parts at once |
| MusicXmlUtils.StorePartsInto | musicxml_utils.py:41-42 | the part loop gives `StoreParts`; the key order lists each key once |
| MusicXmlUtils.StorePartsKeys | musicxml_utils.py:25-42 | the keys are the old keys plus the ids of the parts |
| MusicXmlUtils.LastWithIdIsLast | musicxml_utils.py:41-42 | the part found for an id has that id and no later part shares it; a part is found exactly when some part has the id |
| MusicXmlUtils.StorePartsLast | musicxml_utils.py:41-42 | last writer wins: an id maps to the last part with that id, or to its earlier entry when there is none |
| MusicXmlUtils.StorePartsConcat | musicxml_utils.py:28-42 | storing page after page is storing all their parts at once |
| MusicXmlUtils.InitialConsistent | musicxml_utils.py:25 | after the first page the dictionary's keys are exactly the ids met |
| MusicXmlUtils.MergePagesConsistent | musicxml_utils.py:28-42 | the page loop keeps the keys equal to the ids met |
| MusicXmlUtils.MergePagesErr | musicxml_utils.py:28-31 | an error on a prefix of the pages is the error of the loop |
| MusicXmlUtils.MergePagesStep | musicxml_utils.py:28-42 | one more page in the loop: it fails if a previous page failed or it does not parse; otherwise it is merged |
| MusicXmlUtils.MergePagesLast | musicxml_utils.py:28-42 | the last page makes the loop fail exactly when it does not parse, or brings score-parts with no part-list to put them in |
| MusicXmlUtils.MergePagesOutcome | musicxml_utils.py:28-42 | the loop succeeds exactly when no page fails, and otherwise raises the error of the first page that does |
| MusicXmlUtils.MergePagesOk | musicxml_utils.py:28-42 | when every page parses and merges, the loop merges and stores the pages' entries as one sequence |
| MusicXmlUtils.MergeNextPage | musicxml_utils.py:29-42 | one turn of the page loop gives `MergePage` |
| MusicXmlUtils.MergeLaterPages | musicxml_utils.py:28-42 | the page loop gives `MergePages` |
| MusicXmlUtils.SortedKeys | musicxml_utils.py:47 | `sorted(parts)` is the ids met, each once, in ascending order |
| MusicXmlUtils.RemoveParts | musicxml_utils.py:45-46 | the removal loop drops exactly the `part` children and keeps the rest in order |
| MusicXmlUtils.AppendParts | musicxml_utils.py:47-48 | the re-append loop appends the stored parts in key order |
| MusicXmlUtils.PartsInOrder | musicxml_utils.py:47-48 | one stored part per key, in key order |
| MusicXmlUtils.WithPartListFacts | musicxml_utils.py:24-38 | writing the merged part-list back changes only the part-list's children |
| MusicXmlUtils.AssembleDocument | musicxml_utils.py:44-48 | the part-list write, removal and re-append give `Assemble` |
| MusicXmlUtils.JoinMusicXmlFiles | musicxml_utils.py:13-54 | the method gives `Join`: the merged document or the error that stops it |
| MusicXmlUtils.JoinSucceeds | musicxml_utils.py:14-42 | succeeds exactly when a file is selected, every selected file parses, and later pages bring no score-parts unless the first page has a part-list |
| MusicXmlUtils.JoinErrors | musicxml_utils.py:15-37 | fails on no files exactly when no name ends in ".musicxml"; an unparsable name is a selected one; a missing part-list only when the first page lacks one and a later page brings score-parts |
| MusicXmlUtils.JoinWrites | musicxml_utils.py:13-54 | on success the document written is `Joined` |
| MusicXmlUtils.PagesJoined | musicxml_utils.py:19-42 | when every page parses and merges, the page loop ends in the state `Joined` assembles |
| MusicXmlUtils.JoinedParts | musicxml_utils.py:25-48 | one part per id met on any page, in ascending id order, each the last part with that id in page order |
| MusicXmlUtils.JoinedRest | musicxml_utils.py:44-48 | the root keeps its tag, attributes and non-part children in place; all parts come after them |
| MusicXmlUtils.MergedScorePartsFirstNew | musicxml_utils.py:24-38 | the merged part-list is the first page's entries followed by the later pages' score-parts that are first with an id not yet listed, in page order and document order |
| MusicXmlUtils.JoinedPartList | musicxml_utils.py:24-38 | the merged document has a part-list exactly when the first page has one, holding the merged entries |
| MusicXmlUtils.P10BeforeP2 | musicxml_utils.py:47 | ids sort as strings: "P10" comes before "P2" |
| MusicXmlUtils.SingleJoined | musicxml_utils.py:19-48 | a single page already in merged form comes back unchanged |
| MusicXmlUtils.OnePageJoined | musicxml_utils.py:19-48 | with one page the part-list is unchanged, and the parts are the page's own, one per id, in ascending id order, each the last with its id |
| MusicXmlUtils.JoinSingle | musicxml_utils.py:13-54 | a directory with one such MusicXML file writes that file's document unchanged |
| MusicXmlUtils.JoinTwoWithoutParts | musicxml_utils.py:13-54 | two pages with no part and no score-part give the first page unchanged |
| MusicXmlUtils.JoinTwoSamePart | musicxml_utils.py:13-54 | two pages holding the same part id give the first page with the second page's part |
| MusicXmlUtils.DemoPageContents | musicxml_utils.py:72-74 | a demonstration page has no score-part and no part-list, and its part is found only when namespaced |
| MusicXmlUtils.ExampleUnclosed | musicxml_utils.py:71-76 | the demonstration as written stops at page 1, which does not parse |
| MusicXmlUtils.ExampleUnqualified | musicxml_utils.py:71-76 | with `part` closed but no namespace, the merge writes page 1 unchanged and page 2's measure is lost |
| MusicXmlUtils.ExampleNamespaced | musicxml_utils.py:71-76 | well-formed, namespaced pages merge into a single P1 holding only page 2's D4 measure |
| Strings.IntToStringRoundTrip | xml_generator.py:50 | reading `str(i)` back gives i |
| Strings.SortDistinct | musicxml_utils.py:47 | on distinct strings `sorted` is `sorted(set(...))` |

## Left out

- I/O: reading the directory, parsing files (`ET.parse`) and writing the output (`tree.write`, the `print`) are not modelled. The listing and the parsed roots are parameters, and a file that does not parse is a name missing from the map.
- The namespace registration (`ET.register_namespace`) affects only serialisation, and so is not modelled.
- `convert_to_musescore_format` (musicxml_utils.py:56-65) is a thin wrapper over the `ms3` library and is not modelled.
- The other files of the repository (PDF rasterising, the recogniser calls, downloads, the command line and web front ends) are not modelled.
- The `musicxml` library reorders children by its schema when it writes a document. The model keeps insertion order.
- `constants.duration_of_quarter` comes from a library whose source is not part of this model. It is the parameter `durationOfQuarter`.
- `ResultChord.is_rest` belongs to that same library. It is modelled as a field of `Chord`.
- Intermediate objects are values. An element built by a function is an `Element` value. Only the measure, which the source changes through `build_or_get_attributes`, is a class.
- XmlGenerator.MeasureNode.BuildClef: the attributes block is addressed by its index in the measure, not by an object reference.
- XmlGenerator.TimeDirectionContent: the sound's `tempo` attribute is stated as the decimal text of the integer. This holds the library's serialised form, not a Python int.
- XmlGenerator.BuildMeasure: chords are built without sibling staffs, as the source does (xml_generator.py:212). The octave shift over sibling staffs is therefore stated only of `BuildNote`, through TransposedExactly and TranspositionKeepsIntervals. It is unreachable from `GenerateXml`.
- Strings.Lower: `str.lower` is modelled for the ASCII letters only. Other characters are kept as they are.
- MusicXmlUtils.JoinMusicXmlFiles: requires every part and `score-part` of the selected pages to carry an `id`. The `score-part` ids must also contain no `'`, so that the `[@id='...']` lookup means "same id". A part without an id (key `None`) and an id that breaks the lookup are not modelled.
- MusicXmlUtils.JoinMusicXmlFiles: the first page without a part-list fails (`MissingPartList`, the `AttributeError` of `None.find`) only when a later page brings a `score-part`, as in the source.
- MusicXmlUtils.MergeScorePartsInto: `part_list.append(sp)` shares the element with the later page's tree. The model copies the value, and so does not model aliasing.
- MusicXmlUtils.RemoveParts: it removes the first remaining `part` child each time. That is the element `list(root.findall(...))` yields next, since the model compares elements by value.

## Findings

| source | as written | input that shows it | evidently intended | confidence | as-written member | corrected member |
|---|---|---|---|---|---|---|
| musicxml_utils.py:72-74 | each demonstration page opens `<part id='P1'>` and then closes `</score-partwise>` with no `</part>`, so it is not well-formed XML and parsing page 1 fails | the two page texts of the demonstration | well-formed pages that merge into one `P1` holding the D4 measure of page 2 | not executed | MusicXmlUtils.ExampleUnclosed | MusicXmlUtils.ExampleNamespaced |
| musicxml_utils.py:72-74 | the demonstration pages use no namespace, so the merger, which looks for `{http://www.musicxml.org/ns/musicxml}part`, finds no part on either page and writes page 1 unchanged | the demonstration pages with `</part>` added | the same merge on namespaced pages: one `P1` holding only page 2's D4 measure | not executed | MusicXmlUtils.ExampleUnqualified | MusicXmlUtils.ExampleNamespaced |
