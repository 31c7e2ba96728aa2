/** The MusicXML builder: a `score-partwise` element tree from recognised staffs. */
module XmlGenerator {

  import opened Wrappers
  import opened XmlTree
  import opened Strings
  import opened Notation

  /** `XmlGeneratorArguments`.  Every field may be `None`; `None`, `False` and 0
      are falsy, as in Python. */
  datatype Arguments = Arguments(largePage: Option<bool>, metronome: Option<int>, tempo: Option<int>)

  predicate Truthy(v: Option<int>) {
    v.Some? && v.value != 0
  }

  predicate LargePage(args: Arguments) {
    args.largePage == Some(true)
  }

  /** The one way the builder fails: `max` of the durations of a non-rest chord
      without notes raises `ValueError`. */
  datatype BuildError = EmptyNoteGroup

  // ---------------------------------------------------------------------------
  // Work, defaults, part roster
  // ---------------------------------------------------------------------------

  function BuildWork(title: string): (r: Element)
    ensures r.tag == "work" && ChildValue(r, "work-title") == Some(Text(title))
  {
    var work := Node("work", [Leaf("work-title", Text(title))]);
    ChildAt(work, 0, "work-title");
    work
  }

  /** Page layout defaults: empty, or an oversized page (in tenths) so that
      systems break only where a new staff line was recognised. */
  function BuildDefaults(args: Arguments): (r: Element)
    ensures r.tag == "defaults"
    ensures !LargePage(args) ==> r.children == []
    ensures LargePage(args) ==> |r.children| == 1 && Child(r, "page-layout").Some?
    ensures LargePage(args) ==>
      var layout := Child(r, "page-layout").value;
      ChildValue(layout, "page-height") == Some(IntValue(300)) &&
      ChildValue(layout, "page-width") == Some(IntValue(110))
  {
    if !LargePage(args) then Node("defaults", [])
    else
      var pageWidth := 110;
      var pageHeight := 300;
      var layout := Node("page-layout", [Leaf("page-height", IntValue(pageHeight)),
                                         Leaf("page-width", IntValue(pageWidth))]);
      var defaults := Node("defaults", [layout]);
      ChildAt(defaults, 0, "page-layout");
      ChildAt(layout, 0, "page-height");
      ChildAt(layout, 1, "page-width");
      defaults
  }

  /** The part identifier of the staff at `index`: "P" then the decimal of `index + 1`. */
  function PartId(index: int): (id: string)
    ensures |id| > 1 && id[0] == 'P' && ParseInt(id[1..]) == Some(index + 1)
    ensures id[1] == '0' ==> index + 1 == 0
  {
    var digits := IntToString(index + 1);
    IntToStringRoundTrip(index + 1);
    assert ("P" + digits)[1..] == digits;
    assert ("P" + digits)[1] == digits[0];
    "P" + digits
  }

  /** Distinct staff indices get distinct part identifiers. */
  lemma PartIdInjective(i: int, j: int)
    requires PartId(i) == PartId(j)
    ensures i == j
  {
    assert PartId(i)[1..] == PartId(j)[1..];
  }

  /** The roster entry of one part: a piano on MIDI channel 1. */
  function ScorePart(id: string): (r: Element)
    ensures r.tag == "score-part" && "id" in r.attrs && r.attrs["id"] == id
  {
    var instrument := Element("score-instrument", map["id" := id + "-I1"], NoValue,
                              [Leaf("instrument-name", Text("Piano")),
                               Leaf("instrument-sound", Text("keyboard.piano"))]);
    var midi := Element("midi-instrument", map["id" := id + "-I1"], NoValue,
                        [Leaf("midi-channel", IntValue(1)), Leaf("midi-program", IntValue(1)),
                         Leaf("volume", IntValue(100)), Leaf("pan", IntValue(0))]);
    Element("score-part", map["id" := id], NoValue, [Leaf("part-name", Text("")), instrument, midi])
  }

  /** A roster entry names the part with an empty name and describes one piano
      instrument, whose score and MIDI descriptions are keyed by the part id + "-I1". */
  lemma ScorePartInstrument(id: string)
    ensures ChildValue(ScorePart(id), "part-name") == Some(Text(""))
    ensures Child(ScorePart(id), "score-instrument").Some? && Child(ScorePart(id), "midi-instrument").Some?
    ensures var instrument := Child(ScorePart(id), "score-instrument").value;
      "id" in instrument.attrs && instrument.attrs["id"] == id + "-I1" &&
      ChildValue(instrument, "instrument-name") == Some(Text("Piano")) &&
      ChildValue(instrument, "instrument-sound") == Some(Text("keyboard.piano"))
    ensures var midi := Child(ScorePart(id), "midi-instrument").value;
      "id" in midi.attrs && midi.attrs["id"] == id + "-I1" &&
      ChildValue(midi, "midi-channel") == Some(IntValue(1)) &&
      ChildValue(midi, "midi-program") == Some(IntValue(1)) &&
      ChildValue(midi, "volume") == Some(IntValue(100)) &&
      ChildValue(midi, "pan") == Some(IntValue(0))
  {
    var part := ScorePart(id);
    var instrument := part.children[1];
    var midi := part.children[2];
    ChildAt(part, 0, "part-name");
    ChildAt(part, 1, "score-instrument");
    ChildAt(part, 2, "midi-instrument");
    ChildAt(instrument, 0, "instrument-name");
    ChildAt(instrument, 1, "instrument-sound");
    ChildAt(midi, 0, "midi-channel");
    ChildAt(midi, 1, "midi-program");
    ChildAt(midi, 2, "volume");
    ChildAt(midi, 3, "pan");
  }

  /** The roster: one `score-part` per staff, in index order (`range` of a
      negative count is empty). */
  function PartList(staffs: int): Element {
    Node("part-list", seq(if staffs < 0 then 0 else staffs, k => ScorePart(PartId(k))))
  }

  /** The roster of `n` staffs lists `PartId(0)` .. `PartId(n - 1)` in order, with
      pairwise distinct identifiers, each entry's instruments keyed by its id + "-I1". */
  lemma PartListRoster(n: nat)
    ensures PartList(n).tag == "part-list" && |PartList(n).children| == n
    ensures forall k :: 0 <= k < n ==> PartList(n).children[k] == ScorePart(PartId(k))
    ensures forall k :: 0 <= k < n ==> PartList(n).children[k].attrs["id"] == PartId(k)
    ensures forall i, j :: 0 <= i < j < n ==>
      PartList(n).children[i].attrs["id"] != PartList(n).children[j].attrs["id"]
  {
    forall i, j | 0 <= i < j < n
      ensures PartList(n).children[i].attrs["id"] != PartList(n).children[j].attrs["id"]
    {
      if PartId(i) == PartId(j) {
        PartIdInjective(i, j);
      }
    }
  }

  method BuildPartList(staffs: int) returns (partList: Element)
    ensures partList == PartList(staffs)
  {
    ghost var count := if staffs < 0 then 0 else staffs;
    var children: seq<Element> := [];
    var part := 0;
    while part < staffs
      invariant 0 <= part <= count
      invariant |children| == part
      invariant forall k :: 0 <= k < part ==> children[k] == ScorePart(PartId(k))
    {
      var partId := PartId(part);
      var scorePart := ScorePart(partId);
      RosterGrows(children, scorePart);
      children := children + [scorePart];
      part := part + 1;
    }
    RosterInOrder(children);
    partList := Node("part-list", children);
  }

  /** Appending the next staff's entry keeps the roster in staff order. */
  lemma RosterGrows(children: seq<Element>, next: Element)
    requires forall k :: 0 <= k < |children| ==> children[k] == ScorePart(PartId(k))
    requires next == ScorePart(PartId(|children|))
    ensures forall k :: 0 <= k < |children| + 1 ==> (children + [next])[k] == ScorePart(PartId(k))
  {
    forall k | 0 <= k < |children| + 1
      ensures (children + [next])[k] == ScorePart(PartId(k))
    {
      if k < |children| {
        assert (children + [next])[k] == children[k];
      }
    }
  }

  lemma RosterInOrder(children: seq<Element>)
    requires forall k :: 0 <= k < |children| ==> children[k] == ScorePart(PartId(k))
    ensures children == seq(|children|, k => ScorePart(PartId(k)))
  {
  }

  // ---------------------------------------------------------------------------
  // The attributes block of a measure
  // ---------------------------------------------------------------------------

  const AttributesTag := "attributes"

  /** A measure's children with its attributes block, and where that block is:
      the first existing one, or a new empty block appended at the end. */
  function WithAttributes(cs: seq<Element>): (r: (seq<Element>, nat))
    ensures r.1 < |r.0| && r.0[r.1].tag == AttributesTag
    ensures |cs| <= |r.0| <= |cs| + 1 && r.0[..|cs|] == cs
    ensures forall j :: 0 <= j < r.1 ==> r.0[j].tag != AttributesTag
    ensures FirstWithTag(cs, AttributesTag).Some? ==> r.0 == cs && r.1 == FirstWithTag(cs, AttributesTag).value
    ensures FirstWithTag(cs, AttributesTag).None? ==> r.0 == cs + [Node(AttributesTag, [])] && r.1 == |cs|
  {
    match FirstWithTag(cs, AttributesTag)
    case Some(k) => (cs, k)
    case None => (cs + [Node(AttributesTag, [])], |cs|)
  }

  /** The children after `items` are written into the measure's attributes block
      (`build_or_get_attributes`, then `add_child` on the block). */
  function WriteAttributes(cs: seq<Element>, items: seq<Element>): seq<Element> {
    var w := WithAttributes(cs);
    w.0[w.1 := WithChildren(w.0[w.1], items)]
  }

  lemma {:induction false} FirstWithTagAppend(cs: seq<Element>, e: Element, tag: string)
    requires FirstWithTag(cs, tag).None? && e.tag == tag
    ensures FirstWithTag(cs + [e], tag) == Some(|cs|)
  {
    var r := FirstWithTag(cs + [e], tag);
    assert (cs + [e])[|cs|].tag == tag;
    assert forall j :: 0 <= j < |cs| ==> (cs + [e])[j] == cs[j];
  }

  lemma {:induction false} CountTagAppend(cs: seq<Element>, e: Element, tag: string)
    ensures CountTag(cs + [e], tag) == CountTag(cs, tag) + (if e.tag == tag then 1 else 0)
  {
    if cs != [] {
      assert (cs + [e])[1..] == cs[1..] + [e];
      CountTagAppend(cs[1..], e, tag);
    } else {
      assert [e][1..] == [];
    }
  }

  /** Asking twice gives the same block and leaves the measure as the first call left it. */
  lemma WithAttributesIdempotent(cs: seq<Element>)
    ensures WithAttributes(WithAttributes(cs).0) == WithAttributes(cs)
  {
    if FirstWithTag(cs, AttributesTag).None? {
      FirstWithTagAppend(cs, Node(AttributesTag, []), AttributesTag);
    }
  }

  /** A measure holding at most one attributes block holds exactly one afterwards. */
  lemma WithAttributesSingle(cs: seq<Element>)
    requires CountTag(cs, AttributesTag) <= 1
    ensures CountTag(WithAttributes(cs).0, AttributesTag) == 1
  {
    CountTagZero(cs, AttributesTag);
    if FirstWithTag(cs, AttributesTag).None? {
      CountTagAppend(cs, Node(AttributesTag, []), AttributesTag);
    }
  }

  /** What `build_clef` writes into the attributes block. */
  function ClefItems(clef: Clef, durationOfQuarter: int): seq<Element> {
    [Leaf("divisions", IntValue(durationOfQuarter)),
     Node("key", [Leaf("fifths", IntValue(clef.circleOfFifth))]),
     Node("clef", [Leaf("sign", Text(clef.clefType.sign)), Leaf("line", IntValue(clef.clefType.line))])]
  }

  /** What `build_time_signature` writes into the attributes block. */
  function TimeItems(time: TimeSignature): seq<Element> {
    [Node("time", [Leaf("beats", Text(IntToString(time.numerator))),
                   Leaf("beat-type", Text(IntToString(time.denominator)))])]
  }

  /** A `measure` element under construction: the builder appends to it, and
      clef and time signature symbols write into its single attributes block.
      The block is addressed by its position among the children. */
  class MeasureNode {
    var number: string
    var children: seq<Element>

    constructor (number: string)
      ensures this.number == number && children == []
    {
      this.number := number;
      children := [];
    }

    function ToElement(): Element
      reads this
    {
      Element("measure", map["number" := number], NoValue, children)
    }

    method AddChild(e: Element)
      modifies this
      ensures number == old(number) && children == old(children) + [e]
    {
      children := children + [e];
    }

    /** `build_or_get_attributes`: the first attributes block, the measure left
        as it was; or, when there is none, a new empty block appended at the end. */
    method BuildOrGetAttributes() returns (k: nat)
      modifies this
      ensures number == old(number) && (children, k) == WithAttributes(old(children))
      ensures FirstWithTag(old(children), AttributesTag).Some? ==>
        children == old(children) && k == FirstWithTag(old(children), AttributesTag).value
      ensures FirstWithTag(old(children), AttributesTag).None? ==>
        children == old(children) + [Node(AttributesTag, [])] && k == |old(children)|
    {
      var found := FirstWithTag(children, AttributesTag);
      if found.Some? {
        return found.value;
      }
      k := |children|;
      children := children + [Node(AttributesTag, [])];
    }

    /** `build_clef`: divisions, key and clef are appended to the block at `k`;
        nothing else in the measure changes. */
    method BuildClef(clef: Clef, k: nat, durationOfQuarter: int)
      requires k < |children| && children[k].tag == AttributesTag
      modifies this
      ensures number == old(number) && |children| == |old(children)|
      ensures children == old(children)[k := WithChildren(old(children)[k], ClefItems(clef, durationOfQuarter))]
    {
      children := children[k := WithChildren(children[k], ClefItems(clef, durationOfQuarter))];
    }

    /** `build_time_signature`: beats and beat-type, as text, are appended to the
        block at `k`; nothing else in the measure changes. */
    method BuildTimeSignature(time: TimeSignature, k: nat)
      requires k < |children| && children[k].tag == AttributesTag
      modifies this
      ensures number == old(number) && |children| == |old(children)|
      ensures children == old(children)[k := WithChildren(old(children)[k], TimeItems(time))]
    {
      children := children[k := WithChildren(children[k], TimeItems(time))];
    }
  }

  // ---------------------------------------------------------------------------
  // Rests and notes
  // ---------------------------------------------------------------------------

  function BuildRest(rest: Chord): (r: Element)
    ensures r.tag == "note"
  {
    var isWholeMeasure := rest.duration.durationName == "whole";
    var mark := Element("rest", if isWholeMeasure then map["measure" := "yes"] else map[], NoValue, []);
    Node("note", [mark, Leaf("duration", IntValue(rest.duration.duration)),
                  Leaf("type", Text(rest.duration.durationName)), Leaf("staff", IntValue(1))])
  }

  /** A rest is one note element with one rest mark and no chord marker; the mark
      says whole-measure ("yes") exactly when the duration is named "whole"; the
      note carries the duration, its type and staff 1. */
  lemma RestContent(rest: Chord)
    ensures var r := BuildRest(rest);
      && CountTag(r.children, "rest") == 1 && CountTag(r.children, "chord") == 0
      && Child(r, "rest").Some?
      && ("measure" in Child(r, "rest").value.attrs <==> rest.duration.durationName == "whole")
      && ("measure" in Child(r, "rest").value.attrs ==> Child(r, "rest").value.attrs["measure"] == "yes")
      && ChildValue(r, "duration") == Some(IntValue(rest.duration.duration))
      && ChildValue(r, "type") == Some(Text(rest.duration.durationName))
      && ChildValue(r, "staff") == Some(IntValue(1))
  {
    var note := BuildRest(rest);
    CountTagOnce(note.children, 0, "rest");
    CountTagAbsent(note.children, "chord");
    ChildAt(note, 0, "rest");
    ChildAt(note, 1, "duration");
    ChildAt(note, 2, "type");
    ChildAt(note, 3, "staff");
  }

  /** The smallest element of `xs`, or 0 for an empty list (`min(xs, default=0)`). */
  function MinOrZero(xs: seq<int>): (m: int)
    ensures xs == [] ==> m == 0
    ensures xs != [] ==> m in xs && forall x :: x in xs ==> m <= x
  {
    if xs == [] then 0
    else if |xs| == 1 then xs[0]
    else
      var rest := MinOrZero(xs[1..]);
      assert xs == [xs[0]] + xs[1..];
      if xs[0] <= rest then xs[0] else rest
  }

  /** The octaves of the notes of the non-rest chords of `symbols`. */
  function SymbolOctaves(symbols: seq<Symbol>): seq<int> {
    if symbols == [] then []
    else
      (if symbols[0].ChordSymbol? && !symbols[0].chord.isRest
       then seq(|symbols[0].chord.notes|, k requires 0 <= k < |symbols[0].chord.notes| =>
                  symbols[0].chord.notes[k].pitch.octave)
       else []) + SymbolOctaves(symbols[1..])
  }

  function MeasureOctaves(measures: seq<Measure>): seq<int> {
    if measures == [] then [] else SymbolOctaves(measures[0].symbols) + MeasureOctaves(measures[1..])
  }

  /** Every octave of a non-rest note of `staffs`, in reading order. */
  function AllOctaves(staffs: seq<Staff>): seq<int> {
    if staffs == [] then [] else MeasureOctaves(staffs[0].measures) + AllOctaves(staffs[1..])
  }

  /** How far every note is moved up when the sibling staffs are known: enough to
      lift the lowest octave to 0, and nothing if none is negative. */
  function TransposeUp(staffs: Option<seq<Staff>>): nat {
    match staffs
    case None => 0
    case Some(ss) => var lowest := MinOrZero(AllOctaves(ss)); if lowest < 0 then -lowest else 0
  }

  /** The octave written for a note: shifted, then clamped at 0. */
  function SafeOctave(octave: int, staffs: Option<seq<Staff>>): nat {
    var shifted := octave + TransposeUp(staffs);
    if shifted < 0 then 0 else shifted
  }

  function BuildPitch(pitch: Pitch, staffs: Option<seq<Staff>>): (r: Element)
    ensures r.tag == "pitch"
  {
    var alter := if pitch.alter.Some? then pitch.alter.value else 0;
    Node("pitch", [Leaf("step", Text(pitch.step)), Leaf("alter", IntValue(alter)),
                   Leaf("octave", IntValue(SafeOctave(pitch.octave, staffs)))])
  }

  /** The pitch carries the step, the alteration (0 when the model has none) and
      the safe octave, which is never negative. */
  lemma PitchContent(pitch: Pitch, staffs: Option<seq<Staff>>)
    ensures var r := BuildPitch(pitch, staffs);
      && ChildValue(r, "step") == Some(Text(pitch.step))
      && ChildValue(r, "alter") == Some(IntValue(pitch.alter.GetOr(0)))
      && ChildValue(r, "octave") == Some(IntValue(SafeOctave(pitch.octave, staffs)))
      && SafeOctave(pitch.octave, staffs) >= 0
      && SafeOctave(pitch.octave, staffs) == (if pitch.octave + TransposeUp(staffs) < 0 then 0
                                              else pitch.octave + TransposeUp(staffs))
  {
    var p := BuildPitch(pitch, staffs);
    ChildAt(p, 0, "step");
    ChildAt(p, 1, "alter");
    ChildAt(p, 2, "octave");
  }

  function ModifierItems(modifier: DurationModifier): seq<Element> {
    match modifier
    case NoModifier => []
    case Dot => [Leaf("dot", NoValue)]
    case Triplet => [Node("time-modification", [Leaf("actual-notes", IntValue(3)), Leaf("normal-notes", IntValue(2))])]
  }

  /** The fixed middle part of a note's children, which carries none of the
      marker tags: the pitch element, type, duration, staff 1 and voice "1". */
  function NoteBody(pitch: Element, duration: Duration): seq<Element> {
    [pitch, Leaf("type", Text(duration.durationName)), Leaf("duration", IntValue(duration.duration)),
     Leaf("staff", IntValue(1)), Leaf("voice", Text("1"))]
  }

  /** The chord marker, present on every note but the first of a chord. */
  function ChordMarker(isChord: bool): seq<Element> {
    if isChord then [Leaf("chord", NoValue)] else []
  }

  /** A note element around an already built pitch, its children in the order
      `build_note` adds them. */
  function NoteOf(pitch: Element, duration: Duration, isChord: bool): Element {
    Node("note", ChordMarker(isChord) + NoteBody(pitch, duration) + ModifierItems(duration.modifier))
  }

  lemma CountAroundBody(marker: seq<Element>, body: seq<Element>, mods: seq<Element>, tag: string)
    requires forall j :: 0 <= j < |body| ==> body[j].tag != tag
    ensures CountTag(marker + body + mods, tag) == CountTag(marker, tag) + CountTag(mods, tag)
  {
    CountTagConcat(marker + body, mods, tag);
    CountTagConcat(marker, body, tag);
    CountTagAbsent(body, tag);
  }

  lemma NoteCounts(pitch: Element, duration: Duration, isChord: bool)
    requires pitch.tag == "pitch"
    ensures var cs := NoteOf(pitch, duration, isChord).children;
      && CountTag(cs, "chord") == (if isChord then 1 else 0)
      && CountTag(cs, "rest") == 0
      && CountTag(cs, "dot") == (if duration.modifier == Dot then 1 else 0)
      && CountTag(cs, "time-modification") == (if duration.modifier == Triplet then 1 else 0)
  {
    var marker := ChordMarker(isChord);
    var body := NoteBody(pitch, duration);
    var mods := ModifierItems(duration.modifier);
    CountAroundBody(marker, body, mods, "chord");
    CountAroundBody(marker, body, mods, "rest");
    CountAroundBody(marker, body, mods, "dot");
    CountAroundBody(marker, body, mods, "time-modification");
    if isChord {
      CountTagOnce(marker, 0, "chord");
    } else {
      CountTagAbsent(marker, "chord");
    }
    CountTagAbsent(marker, "rest");
    CountTagAbsent(marker, "dot");
    CountTagAbsent(marker, "time-modification");
    CountTagAbsent(mods, "chord");
    CountTagAbsent(mods, "rest");
    if duration.modifier == Dot {
      CountTagOnce(mods, 0, "dot");
    } else {
      CountTagAbsent(mods, "dot");
    }
    if duration.modifier == Triplet {
      CountTagOnce(mods, 0, "time-modification");
    } else {
      CountTagAbsent(mods, "time-modification");
    }
  }

  lemma NoteFields(pitch: Element, duration: Duration, isChord: bool)
    requires pitch.tag == "pitch"
    ensures var r := NoteOf(pitch, duration, isChord);
      && Child(r, "pitch") == Some(pitch)
      && ChildValue(r, "type") == Some(Text(duration.durationName))
      && ChildValue(r, "duration") == Some(IntValue(duration.duration))
      && ChildValue(r, "staff") == Some(IntValue(1))
      && ChildValue(r, "voice") == Some(Text("1"))
  {
    var n := NoteOf(pitch, duration, isChord);
    var front, body, back := ChordMarker(isChord), NoteBody(pitch, duration), ModifierItems(duration.modifier);
    ChildInRun(n, front, body, back, 0, "pitch");
    ChildInRun(n, front, body, back, 1, "type");
    ChildInRun(n, front, body, back, 2, "duration");
    ChildInRun(n, front, body, back, 3, "staff");
    ChildInRun(n, front, body, back, 4, "voice");
  }

  /** One note of a chord.  `isChord` marks it as stacked on the previous note;
      `staffs`, when given, are the sibling staffs that fix the octave shift. */
  function BuildNote(note: Note, isChord: bool, staffs: Option<seq<Staff>>): (r: Element)
    ensures r.tag == "note"
  {
    NoteOf(BuildPitch(note.pitch, staffs), note.duration, isChord)
  }

  /** A note carries the chord marker exactly when it is stacked, never a rest
      mark, its pitch (alteration defaulting to 0, octave made safe), type,
      duration, staff 1 and voice "1", and a dot or a 3:2 time modification
      exactly for a dotted or a triplet duration. */
  lemma NoteContent(note: Note, isChord: bool, staffs: Option<seq<Staff>>)
    ensures var r := BuildNote(note, isChord, staffs);
      && CountTag(r.children, "chord") == (if isChord then 1 else 0)
      && CountTag(r.children, "rest") == 0
      && Child(r, "pitch") == Some(BuildPitch(note.pitch, staffs))
      && ChildValue(r, "type") == Some(Text(note.duration.durationName))
      && ChildValue(r, "duration") == Some(IntValue(note.duration.duration))
      && ChildValue(r, "staff") == Some(IntValue(1))
      && ChildValue(r, "voice") == Some(Text("1"))
      && ChildValue(Child(r, "pitch").value, "octave") == Some(IntValue(SafeOctave(note.pitch.octave, staffs)))
      && CountTag(r.children, "dot") == (if note.duration.modifier == Dot then 1 else 0)
      && CountTag(r.children, "time-modification") == (if note.duration.modifier == Triplet then 1 else 0)
  {
    var p := BuildPitch(note.pitch, staffs);
    NoteCounts(p, note.duration, isChord);
    NoteFields(p, note.duration, isChord);
    PitchContent(note.pitch, staffs);
  }

  // ---------------------------------------------------------------------------
  // Octave safety
  // ---------------------------------------------------------------------------

  lemma {:induction false} SymbolOctavesListed(symbols: seq<Symbol>, k: nat, l: nat)
    requires k < |symbols| && symbols[k].ChordSymbol? && !symbols[k].chord.isRest
    requires l < |symbols[k].chord.notes|
    ensures symbols[k].chord.notes[l].pitch.octave in SymbolOctaves(symbols)
  {
    if k > 0 {
      SymbolOctavesListed(symbols[1..], k - 1, l);
    } else {
      var c := symbols[0].chord;
      assert seq(|c.notes|, i requires 0 <= i < |c.notes| => c.notes[i].pitch.octave)[l] == c.notes[l].pitch.octave;
    }
  }

  lemma {:induction false} MeasureOctavesListed(measures: seq<Measure>, j: nat, k: nat, l: nat)
    requires j < |measures| && k < |measures[j].symbols|
    requires measures[j].symbols[k].ChordSymbol? && !measures[j].symbols[k].chord.isRest
    requires l < |measures[j].symbols[k].chord.notes|
    ensures measures[j].symbols[k].chord.notes[l].pitch.octave in MeasureOctaves(measures)
  {
    if j > 0 {
      MeasureOctavesListed(measures[1..], j - 1, k, l);
    } else {
      SymbolOctavesListed(measures[0].symbols, k, l);
    }
  }

  /** Every note of a non-rest chord of the staffs takes part in the minimum. */
  lemma {:induction false} AllOctavesListed(staffs: seq<Staff>, i: nat, j: nat, k: nat, l: nat)
    requires i < |staffs| && j < |staffs[i].measures| && k < |staffs[i].measures[j].symbols|
    requires staffs[i].measures[j].symbols[k].ChordSymbol? && !staffs[i].measures[j].symbols[k].chord.isRest
    requires l < |staffs[i].measures[j].symbols[k].chord.notes|
    ensures staffs[i].measures[j].symbols[k].chord.notes[l].pitch.octave in AllOctaves(staffs)
  {
    if i > 0 {
      AllOctavesListed(staffs[1..], i - 1, j, k, l);
    } else {
      MeasureOctavesListed(staffs[0].measures, j, k, l);
    }
  }

  /** Note `l` of symbol `k` is a note of a non-rest chord. */
  predicate NonRestNote(symbols: seq<Symbol>, k: int, l: int) {
    && 0 <= k < |symbols| && symbols[k].ChordSymbol? && !symbols[k].chord.isRest
    && 0 <= l < |symbols[k].chord.notes|
  }

  /** `o` is the octave of some note of a non-rest chord of the staffs. */
  ghost predicate NonRestOctave(staffs: seq<Staff>, o: int) {
    exists i, j, k, l :: 0 <= i < |staffs| && 0 <= j < |staffs[i].measures| &&
      NonRestNote(staffs[i].measures[j].symbols, k, l) &&
      staffs[i].measures[j].symbols[k].chord.notes[l].pitch.octave == o
  }

  lemma {:induction false} SymbolOctavesFrom(symbols: seq<Symbol>, o: int)
    requires o in SymbolOctaves(symbols)
    ensures exists k, l :: NonRestNote(symbols, k, l) && symbols[k].chord.notes[l].pitch.octave == o
  {
    var x := symbols[0];
    var head := if x.ChordSymbol? && !x.chord.isRest
      then seq(|x.chord.notes|, k requires 0 <= k < |x.chord.notes| => x.chord.notes[k].pitch.octave)
      else [];
    assert SymbolOctaves(symbols) == head + SymbolOctaves(symbols[1..]);
    if o in head {
      var l :| 0 <= l < |head| && head[l] == o;
      assert NonRestNote(symbols, 0, l);
    } else {
      SymbolOctavesFrom(symbols[1..], o);
      var k, l :| NonRestNote(symbols[1..], k, l) && symbols[1..][k].chord.notes[l].pitch.octave == o;
      assert symbols[1..][k] == symbols[k + 1];
      assert NonRestNote(symbols, k + 1, l);
    }
  }

  lemma {:induction false} MeasureOctavesFrom(measures: seq<Measure>, o: int)
    requires o in MeasureOctaves(measures)
    ensures exists j, k, l ::
              0 <= j < |measures| && NonRestNote(measures[j].symbols, k, l) &&
              measures[j].symbols[k].chord.notes[l].pitch.octave == o
  {
    if o in SymbolOctaves(measures[0].symbols) {
      SymbolOctavesFrom(measures[0].symbols, o);
      var k, l :| NonRestNote(measures[0].symbols, k, l) && measures[0].symbols[k].chord.notes[l].pitch.octave == o;
    } else {
      MeasureOctavesFrom(measures[1..], o);
      var j, k, l :| 0 <= j < |measures[1..]| && NonRestNote(measures[1..][j].symbols, k, l) &&
        measures[1..][j].symbols[k].chord.notes[l].pitch.octave == o;
      assert measures[1..][j] == measures[j + 1];
    }
  }

  lemma {:induction false} AllOctavesFrom(staffs: seq<Staff>, o: int)
    requires o in AllOctaves(staffs)
    ensures NonRestOctave(staffs, o)
  {
    if o in MeasureOctaves(staffs[0].measures) {
      MeasureOctavesFrom(staffs[0].measures, o);
      var j, k, l :| 0 <= j < |staffs[0].measures| && NonRestNote(staffs[0].measures[j].symbols, k, l) &&
        staffs[0].measures[j].symbols[k].chord.notes[l].pitch.octave == o;
    } else {
      AllOctavesFrom(staffs[1..], o);
      var i, j, k, l :| 0 <= i < |staffs[1..]| && 0 <= j < |staffs[1..][i].measures| &&
        NonRestNote(staffs[1..][i].measures[j].symbols, k, l) &&
        staffs[1..][i].measures[j].symbols[k].chord.notes[l].pitch.octave == o;
      assert staffs[1..][i] == staffs[i + 1];
    }
  }

  /** The octave list holds exactly the octaves of the notes of non-rest chords:
      rests do not take part. */
  lemma AllOctavesExactly(staffs: seq<Staff>, o: int)
    ensures o in AllOctaves(staffs) <==> NonRestOctave(staffs, o)
  {
    if o in AllOctaves(staffs) {
      AllOctavesFrom(staffs, o);
    }
    if NonRestOctave(staffs, o) {
      var i, j, k, l :| 0 <= i < |staffs| && 0 <= j < |staffs[i].measures| &&
        NonRestNote(staffs[i].measures[j].symbols, k, l) &&
        staffs[i].measures[j].symbols[k].chord.notes[l].pitch.octave == o;
      AllOctavesListed(staffs, i, j, k, l);
    }
  }

  /** The minimum `build_note` takes is the lowest octave of a note of a non-rest
      chord, and 0 when the staffs have no such note. */
  lemma LowestOctave(staffs: seq<Staff>)
    ensures var m := MinOrZero(AllOctaves(staffs));
      && (forall i, j, k, l ::
            (0 <= i < |staffs| && 0 <= j < |staffs[i].measures| && NonRestNote(staffs[i].measures[j].symbols, k, l)) ==>
            m <= staffs[i].measures[j].symbols[k].chord.notes[l].pitch.octave)
      && (AllOctaves(staffs) != [] ==> NonRestOctave(staffs, m))
      && ((forall o :: !NonRestOctave(staffs, o)) ==> m == 0)
  {
    var m := MinOrZero(AllOctaves(staffs));
    forall i, j, k, l | 0 <= i < |staffs| && 0 <= j < |staffs[i].measures| &&
      NonRestNote(staffs[i].measures[j].symbols, k, l)
      ensures m <= staffs[i].measures[j].symbols[k].chord.notes[l].pitch.octave
    {
      AllOctavesListed(staffs, i, j, k, l);
    }
    if AllOctaves(staffs) != [] {
      AllOctavesFrom(staffs, m);
      assert AllOctaves(staffs)[0] in AllOctaves(staffs);
      AllOctavesFrom(staffs, AllOctaves(staffs)[0]);
    }
  }

  /** A note of the sibling staffs is moved by exactly the common shift, never clamped. */
  lemma TransposedExactly(staffs: seq<Staff>, octave: int)
    requires octave in AllOctaves(staffs)
    ensures SafeOctave(octave, Some(staffs)) == octave + TransposeUp(Some(staffs))
  {
  }

  /** With sibling staffs known, the same shift applies to every note of every
      non-rest chord, so the distance between any two of their octaves survives
      the transposition. */
  lemma TranspositionKeepsIntervals(staffs: seq<Staff>, a: (nat, nat, nat, nat), b: (nat, nat, nat, nat))
    requires a.0 < |staffs| && a.1 < |staffs[a.0].measures| && a.2 < |staffs[a.0].measures[a.1].symbols|
    requires staffs[a.0].measures[a.1].symbols[a.2].ChordSymbol? && !staffs[a.0].measures[a.1].symbols[a.2].chord.isRest
    requires a.3 < |staffs[a.0].measures[a.1].symbols[a.2].chord.notes|
    requires b.0 < |staffs| && b.1 < |staffs[b.0].measures| && b.2 < |staffs[b.0].measures[b.1].symbols|
    requires staffs[b.0].measures[b.1].symbols[b.2].ChordSymbol? && !staffs[b.0].measures[b.1].symbols[b.2].chord.isRest
    requires b.3 < |staffs[b.0].measures[b.1].symbols[b.2].chord.notes|
    ensures var x := staffs[a.0].measures[a.1].symbols[a.2].chord.notes[a.3].pitch.octave;
            var y := staffs[b.0].measures[b.1].symbols[b.2].chord.notes[b.3].pitch.octave;
            SafeOctave(x, Some(staffs)) - SafeOctave(y, Some(staffs)) == x - y
  {
    AllOctavesListed(staffs, a.0, a.1, a.2, a.3);
    AllOctavesListed(staffs, b.0, b.1, b.2, b.3);
  }

  // ---------------------------------------------------------------------------
  // Chords
  // ---------------------------------------------------------------------------

  /** The longest note of a non-empty chord (`max` over the note durations). */
  function MaxDuration(notes: seq<Note>): (m: int)
    requires |notes| > 0
    ensures forall k :: 0 <= k < |notes| ==> notes[k].duration.duration <= m
    ensures exists k :: 0 <= k < |notes| && notes[k].duration.duration == m
  {
    if |notes| == 1 then notes[0].duration.duration
    else
      var rest := MaxDuration(notes[1..]);
      assert forall k :: 1 <= k < |notes| ==> notes[k] == notes[1..][k - 1];
      if notes[0].duration.duration >= rest then notes[0].duration.duration else rest
  }

  /** A `backup` that moves the time cursor back by `length` divisions. */
  function Backup(length: int): Element {
    Node("backup", [Leaf("duration", IntValue(length))])
  }

  /** The total length the backups in `cs` move the cursor back by. */
  function BackupLength(cs: seq<Element>): int {
    if cs == [] then 0
    else
      (if cs[0].tag == "backup" && |cs[0].children| > 0 && cs[0].children[0].value.IntValue?
       then cs[0].children[0].value.i else 0) + BackupLength(cs[1..])
  }

  /** `build_note_group` on a chord with notes: every note, the later ones marked as
      stacked, then a backup when the chord is shorter than its longest note. */
  function NoteGroup(chord: Chord, staffs: Option<seq<Staff>>): seq<Element>
    requires |chord.notes| > 0
  {
    var notes := seq(|chord.notes|, k requires 0 <= k < |chord.notes| => BuildNote(chord.notes[k], k > 0, staffs));
    var longest := MaxDuration(chord.notes);
    notes + (if chord.duration.duration < longest then [Backup(longest - chord.duration.duration)] else [])
  }

  lemma {:induction false} BackupLengthNotes(cs: seq<Element>)
    requires forall k :: 0 <= k < |cs| ==> cs[k].tag == "note"
    ensures BackupLength(cs) == 0
  {
    if cs != [] {
      BackupLengthNotes(cs[1..]);
    }
  }

  lemma {:induction false} BackupLengthConcat(a: seq<Element>, b: seq<Element>)
    ensures BackupLength(a + b) == BackupLength(a) + BackupLength(b)
  {
    if a != [] {
      assert (a + b)[1..] == a[1..] + b;
      BackupLengthConcat(a[1..], b);
    } else {
      assert a + b == b;
    }
  }

  /** The note group starts with one note element per model note, in order, the
      later ones stacked; a backup follows exactly when the chord is shorter than
      its longest note, and the chord's length plus the backed-up length is that
      longest note. */
  lemma NoteGroupShape(chord: Chord, staffs: Option<seq<Staff>>)
    requires |chord.notes| > 0
    ensures var g := NoteGroup(chord, staffs);
      var n := |chord.notes|;
      var longest := MaxDuration(chord.notes);
      && |g| == n + (if chord.duration.duration < longest then 1 else 0)
      && (forall k :: 0 <= k < n ==> g[k] == BuildNote(chord.notes[k], k > 0, staffs))
      && (|g| > n ==> g[n].tag == "backup")
      && chord.duration.duration + BackupLength(g) ==
         (if chord.duration.duration < longest then longest else chord.duration.duration)
  {
    var notes := seq(|chord.notes|, k requires 0 <= k < |chord.notes| => BuildNote(chord.notes[k], k > 0, staffs));
    var d, longest := chord.duration.duration, MaxDuration(chord.notes);
    assert NoteGroup(chord, staffs) == notes + (if d < longest then [Backup(longest - d)] else []);
    GroupShape(notes, d, longest);
  }

  /** Note elements followed by a backup of `longest - length` when the chord
      length is the shorter. */
  lemma GroupShape(notes: seq<Element>, length: int, longest: int)
    requires forall k :: 0 <= k < |notes| ==> notes[k].tag == "note"
    ensures var g := notes + (if length < longest then [Backup(longest - length)] else []);
      var n := |notes|;
      && |g| == n + (if length < longest then 1 else 0)
      && (forall k :: 0 <= k < n ==> g[k] == notes[k])
      && (|g| > n ==> g[n].tag == "backup")
      && length + BackupLength(g) == (if length < longest then longest else length)
  {
    var tail := if length < longest then [Backup(longest - length)] else [];
    BackupLengthNotes(notes);
    BackupLengthConcat(notes, tail);
    assert BackupLength(tail) == (if length < longest then longest - length else 0);
  }

  /** Every note element of a group carries its model note's pitch and duration,
      and only the first one lacks the chord marker. */
  lemma NoteGroupNotes(chord: Chord, staffs: Option<seq<Staff>>)
    requires |chord.notes| > 0
    ensures var g := NoteGroup(chord, staffs);
      forall k :: 0 <= k < |chord.notes| ==>
        && g[k].tag == "note"
        && (CountTag(g[k].children, "chord") == 0 <==> k == 0)
        && Child(g[k], "pitch") == Some(BuildPitch(chord.notes[k].pitch, staffs))
        && ChildValue(g[k], "duration") == Some(IntValue(chord.notes[k].duration.duration))
  {
    NoteGroupShape(chord, staffs);
    forall k | 0 <= k < |chord.notes|
      ensures var e := BuildNote(chord.notes[k], k > 0, staffs);
        && (CountTag(e.children, "chord") == 0 <==> k == 0)
        && Child(e, "pitch") == Some(BuildPitch(chord.notes[k].pitch, staffs))
        && ChildValue(e, "duration") == Some(IntValue(chord.notes[k].duration.duration))
    {
      NoteContent(chord.notes[k], k > 0, staffs);
    }
  }

  /** The example of a C4 quarter stacked with an E4 eighth in a chord of eighth
      length: two notes, then a backup of a quarter minus an eighth. */
  lemma StackedChordExample(quarter: int, eighth: int)
    requires 0 < eighth < quarter
    ensures var c4 := Note(Pitch("C", 4, None), Duration(quarter, "quarter", NoModifier));
      var e4 := Note(Pitch("E", 4, None), Duration(eighth, "eighth", NoModifier));
      var g := NoteGroup(Chord(Duration(eighth, "eighth", NoModifier), [c4, e4], false), None);
      g == [BuildNote(c4, false, None), BuildNote(e4, true, None), Backup(quarter - eighth)]
  {
    var c4 := Note(Pitch("C", 4, None), Duration(quarter, "quarter", NoModifier));
    var e4 := Note(Pitch("E", 4, None), Duration(eighth, "eighth", NoModifier));
    assert MaxDuration([c4, e4]) == quarter by {
      assert [c4, e4][1..] == [e4];
    }
  }

  method BuildNoteGroup(noteGroup: Chord, staffs: Option<seq<Staff>>) returns (r: Result<seq<Element>, BuildError>)
    ensures r.Err? <==> noteGroup.notes == []
    ensures r.Ok? ==> |noteGroup.notes| > 0 && r.value == NoteGroup(noteGroup, staffs)
  {
    var result := BuildNotes(noteGroup.notes, staffs);
    if noteGroup.notes == [] {
      return Err(EmptyNoteGroup);
    }
    var maxDuration := MaxDuration(noteGroup.notes);
    var backup := if noteGroup.duration.duration < maxDuration then [Backup(maxDuration - noteGroup.duration.duration)] else [];
    NotesInOrder(result, noteGroup, staffs, backup);
    r := Ok(result + backup);
  }

  /** The note loop of `build_note_group`: only the first note is not stacked. */
  method BuildNotes(notes: seq<Note>, staffs: Option<seq<Staff>>) returns (result: seq<Element>)
    ensures |result| == |notes|
    ensures forall k :: 0 <= k < |notes| ==> result[k] == BuildNote(notes[k], k > 0, staffs)
  {
    result := [];
    var isFirst := true;
    for i := 0 to |notes|
      invariant isFirst <==> i == 0
      invariant |result| == i
      invariant forall k :: 0 <= k < i ==> result[k] == BuildNote(notes[k], k > 0, staffs)
    {
      result := result + [BuildNote(notes[i], !isFirst, staffs)];
      isFirst := false;
    }
  }

  /** The notes built in order, followed by the backup the chord needs, are its note group. */
  lemma NotesInOrder(result: seq<Element>, chord: Chord, staffs: Option<seq<Staff>>, backup: seq<Element>)
    requires |chord.notes| > 0 && |result| == |chord.notes|
    requires forall k :: 0 <= k < |chord.notes| ==> result[k] == BuildNote(chord.notes[k], k > 0, staffs)
    requires var longest := MaxDuration(chord.notes);
      backup == if chord.duration.duration < longest then [Backup(longest - chord.duration.duration)] else []
    ensures result + backup == NoteGroup(chord, staffs)
  {
    var built := seq(|chord.notes|, k requires 0 <= k < |chord.notes| => BuildNote(chord.notes[k], k > 0, staffs));
    assert NoteGroup(chord, staffs) == built + backup;
    assert result == built by {
      assert forall k :: 0 <= k < |built| ==> built[k] == result[k];
    }
  }

  /** Whether `build_chord` succeeds on a chord. */
  predicate Buildable(chord: Chord) {
    chord.isRest || |chord.notes| > 0
  }

  /** `build_chord`: one rest element for a rest, the note group otherwise. */
  function ChordElements(chord: Chord, staffs: Option<seq<Staff>>): (r: seq<Element>)
    requires Buildable(chord)
    ensures forall k :: 0 <= k < |r| ==> r[k].tag == "note" || r[k].tag == "backup"
    ensures chord.isRest ==> |r| == 1 && CountTag(r[0].children, "rest") == 1
  {
    RestContent(chord);
    if chord.isRest then [BuildRest(chord)] else NoteGroup(chord, staffs)
  }

  method BuildChord(chord: Chord, staffs: Option<seq<Staff>>) returns (r: Result<seq<Element>, BuildError>)
    ensures r.Err? <==> !Buildable(chord)
    ensures r.Ok? ==> Buildable(chord) && r.value == ChordElements(chord, staffs)
  {
    if chord.isRest {
      return Ok([BuildRest(chord)]);
    }
    r := BuildNoteGroup(chord, staffs);
  }

  // ---------------------------------------------------------------------------
  // Measures
  // ---------------------------------------------------------------------------

  /** `build_add_time_direction`: a metronome mark with a sound tempo, made only
      when a (non-zero) metronome value is given. */
  function TimeDirection(args: Arguments): (r: Option<Element>)
    ensures r.Some? <==> Truthy(args.metronome)
    ensures r.Some? ==> r.value.tag == "direction"
  {
    if !Truthy(args.metronome) then None
    else
      var metronome := Node("metronome", [Leaf("beat-unit", Text("quarter")),
                                          Leaf("per-minute", Text(IntToString(args.metronome.value)))]);
      var tempo := if Truthy(args.tempo) then args.tempo.value else args.metronome.value;
      var sound := Element("sound", map["tempo" := IntToString(tempo)], NoValue, []);
      Some(Node("direction", [Node("direction-type", [metronome]), sound]))
  }

  /** The direction beats quarters at the metronome value, and its sound plays at
      the tempo when one is given and at the metronome value otherwise. */
  lemma TimeDirectionContent(args: Arguments)
    requires Truthy(args.metronome)
    ensures var d := TimeDirection(args).value;
      && Child(d, "direction-type").Some?
      && Child(Child(d, "direction-type").value, "metronome").Some?
      && ChildValue(Child(Child(d, "direction-type").value, "metronome").value, "beat-unit") == Some(Text("quarter"))
      && ChildValue(Child(Child(d, "direction-type").value, "metronome").value, "per-minute") ==
         Some(Text(IntToString(args.metronome.value)))
      && Child(d, "sound").Some?
      && Child(d, "sound").value.attrs ==
         map["tempo" := IntToString(if Truthy(args.tempo) then args.tempo.value else args.metronome.value)]
  {
    var d := TimeDirection(args).value;
    var dt := d.children[0];
    ChildAt(d, 0, "direction-type");
    ChildAt(d, 1, "sound");
    ChildAt(dt, 0, "metronome");
    ChildAt(dt.children[0], 0, "beat-unit");
    ChildAt(dt.children[0], 1, "per-minute");
  }

  /** The system break a measure starting a new line carries. */
  function PrintElement(): (r: Element)
    ensures r.tag == "print" && r.attrs == map["new-system" := "yes"]
  {
    Element("print", map["new-system" := "yes"], NoValue, [])
  }

  /** What `build_measure` adds before the symbols: the time direction on measure
      1 of the first part, then a system break on a new line other than measure 1. */
  function MeasureHeader(args: Arguments, isFirstPart: bool, number: int, isNewLine: bool): (r: seq<Element>)
    ensures forall j :: 0 <= j < |r| ==> r[j].tag == "direction" || r[j].tag == "print"
  {
    (if number == 1 && isFirstPart && TimeDirection(args).Some? then [TimeDirection(args).value] else []) +
    (if isNewLine && number != 1 then [PrintElement()] else [])
  }

  predicate IsAttributeSymbol(s: Symbol) {
    s.ClefSymbol? || s.TimeSymbol?
  }

  /** What one symbol writes into the attributes block. */
  function SymbolItems(s: Symbol, durationOfQuarter: int): seq<Element> {
    match s
    case ClefSymbol(clef) => ClefItems(clef, durationOfQuarter)
    case TimeSymbol(time) => TimeItems(time)
    case ChordSymbol(_) => []
  }

  /** Everything the clef and time signature symbols write, in symbol order. */
  function AttributeItems(symbols: seq<Symbol>, durationOfQuarter: int): seq<Element> {
    if symbols == [] then []
    else AttributeItems(symbols[..|symbols| - 1], durationOfQuarter) + SymbolItems(symbols[|symbols| - 1], durationOfQuarter)
  }

  /** Every chord of the symbols can be built. */
  predicate SymbolsBuildable(symbols: seq<Symbol>) {
    forall k :: 0 <= k < |symbols| && symbols[k].ChordSymbol? ==> Buildable(symbols[k].chord)
  }

  /** The elements one symbol adds outside the attributes block: the notes, rests
      and backups of a chord (built without sibling staffs), nothing for a clef
      or a time signature. */
  function SymbolElements(x: Symbol): (r: seq<Element>)
    requires x.ChordSymbol? ==> Buildable(x.chord)
    ensures ChordTagged(r)
  {
    if x.ChordSymbol? then ChordElements(x.chord, None) else []
  }

  /** Every element is a note or a backup. */
  predicate ChordTagged(cs: seq<Element>) {
    forall m :: 0 <= m < |cs| ==> cs[m].tag == "note" || cs[m].tag == "backup"
  }

  /** The elements of each symbol, symbol by symbol. */
  function ChordGroups(symbols: seq<Symbol>): (r: seq<seq<Element>>)
    requires SymbolsBuildable(symbols)
    ensures |r| == |symbols|
    ensures forall k :: 0 <= k < |r| ==> ChordTagged(r[k])
    ensures forall k :: 0 <= k < |r| && IsAttributeSymbol(symbols[k]) ==> r[k] == []
  {
    seq(|symbols|, k requires 0 <= k < |symbols| => SymbolElements(symbols[k]))
  }

  /** The groups one after the other. */
  function Flatten(groups: seq<seq<Element>>): seq<Element> {
    if groups == [] then [] else Flatten(groups[..|groups| - 1]) + groups[|groups| - 1]
  }

  /** The chord elements of the symbols, in symbol order. */
  function Chords(symbols: seq<Symbol>): seq<Element>
    requires SymbolsBuildable(symbols)
  {
    Flatten(ChordGroups(symbols))
  }

  /** The position of the first clef or time signature symbol. */
  function FirstAttributeSymbol(symbols: seq<Symbol>): (r: Option<nat>)
    ensures r.Some? ==> r.value < |symbols| && IsAttributeSymbol(symbols[r.value])
    ensures r.Some? ==> forall k :: 0 <= k < r.value ==> !IsAttributeSymbol(symbols[k])
    ensures r.None? ==> forall k :: 0 <= k < |symbols| ==> !IsAttributeSymbol(symbols[k])
  {
    if symbols == [] then None
    else
      match FirstAttributeSymbol(symbols[..|symbols| - 1])
      case Some(j) => Some(j)
      case None => if IsAttributeSymbol(symbols[|symbols| - 1]) then Some(|symbols| - 1) else None
  }

  /** Where the symbols' output goes: the groups in order, and the one attributes
      block, holding every clef and time signature item, at the place where the
      first clef or time signature created it. */
  function Layout(symbols: seq<Symbol>, groups: seq<seq<Element>>, durationOfQuarter: int): seq<Element>
    requires |groups| == |symbols|
  {
    match FirstAttributeSymbol(symbols)
    case None => Flatten(groups)
    case Some(j) =>
      Flatten(groups[..j]) + [Node(AttributesTag, AttributeItems(symbols, durationOfQuarter))] + Flatten(groups[j + 1..])
  }

  /** The children the symbols of a measure produce. */
  function MeasureBody(symbols: seq<Symbol>, durationOfQuarter: int): seq<Element>
    requires SymbolsBuildable(symbols)
  {
    Layout(symbols, ChordGroups(symbols), durationOfQuarter)
  }

  /** The measure element `build_measure` returns when every chord can be built. */
  function MeasureElement(args: Arguments, measure: Measure, isFirstPart: bool, number: int, durationOfQuarter: int): (r: Element)
    requires SymbolsBuildable(measure.symbols)
    ensures r.tag == "measure" && r.attrs == map["number" := IntToString(number)]
  {
    Element("measure", map["number" := IntToString(number)], NoValue,
            MeasureHeader(args, isFirstPart, number, measure.isNewLine) + MeasureBody(measure.symbols, durationOfQuarter))
  }

  function MeasureResult(args: Arguments, measure: Measure, isFirstPart: bool, number: int, durationOfQuarter: int): Result<Element, BuildError> {
    if SymbolsBuildable(measure.symbols) then Ok(MeasureElement(args, measure, isFirstPart, number, durationOfQuarter))
    else Err(EmptyNoteGroup)
  }

  lemma FlattenAppend(groups: seq<seq<Element>>, e: seq<Element>)
    ensures Flatten(groups + [e]) == Flatten(groups) + e
  {
    assert (groups + [e])[..|groups|] == groups;
  }

  lemma {:induction false} FlattenConcat(a: seq<seq<Element>>, b: seq<seq<Element>>)
    ensures Flatten(a + b) == Flatten(a) + Flatten(b)
  {
    if b == [] {
      assert a + b == a;
    } else {
      var b' := b[..|b| - 1];
      assert a + b == (a + b') + [b[|b| - 1]] && b == b' + [b[|b| - 1]];
      FlattenAppend(a + b', b[|b| - 1]);
      FlattenConcat(a, b');
      FlattenAppend(b', b[|b| - 1]);
    }
  }

  lemma {:induction false} FlattenTagged(groups: seq<seq<Element>>)
    requires forall k :: 0 <= k < |groups| ==> ChordTagged(groups[k])
    ensures ChordTagged(Flatten(groups))
  {
    if groups != [] {
      FlattenTagged(groups[..|groups| - 1]);
    }
  }

  lemma ChordGroupsAppend(t: seq<Symbol>, x: Symbol)
    requires SymbolsBuildable(t + [x])
    ensures SymbolsBuildable(t) && (x.ChordSymbol? ==> Buildable(x.chord))
    ensures ChordGroups(t + [x]) == ChordGroups(t) + [SymbolElements(x)]
  {
    assert (t + [x])[|t|] == x;
    assert forall k :: 0 <= k < |t| ==> (t + [x])[k] == t[k];
  }

  lemma AttributeItemsAppend(t: seq<Symbol>, x: Symbol, durationOfQuarter: int)
    ensures AttributeItems(t + [x], durationOfQuarter) == AttributeItems(t, durationOfQuarter) + SymbolItems(x, durationOfQuarter)
  {
    assert (t + [x])[..|t|] == t;
  }

  lemma {:induction false} AttributeItemsNone(t: seq<Symbol>, durationOfQuarter: int)
    requires FirstAttributeSymbol(t).None?
    ensures AttributeItems(t, durationOfQuarter) == []
  {
    if t != [] {
      AttributeItemsNone(t[..|t| - 1], durationOfQuarter);
    }
  }

  lemma FirstAttributeSymbolAppend(t: seq<Symbol>, x: Symbol)
    ensures FirstAttributeSymbol(t + [x]) ==
      if FirstAttributeSymbol(t).Some? then FirstAttributeSymbol(t)
      else if IsAttributeSymbol(x) then Some(|t|) else None
  {
    assert (t + [x])[..|t|] == t;
  }

  /** A chord symbol appends its elements to the measure. */
  lemma LayoutChordStep(header: seq<Element>, s: seq<Symbol>, groups: seq<seq<Element>>, x: Symbol, e: seq<Element>, durationOfQuarter: int)
    requires |groups| == |s| && !IsAttributeSymbol(x)
    ensures header + Layout(s + [x], groups + [e], durationOfQuarter) == header + Layout(s, groups, durationOfQuarter) + e
  {
    assert Layout(s + [x], groups + [e], durationOfQuarter) == Layout(s, groups, durationOfQuarter) + e by {
      FirstAttributeSymbolAppend(s, x);
      if FirstAttributeSymbol(s).None? {
        FlattenAppend(groups, e);
      } else {
        LayoutChordStepAfter(s, groups, x, e, durationOfQuarter, FirstAttributeSymbol(s).value);
      }
    }
  }

  lemma LayoutChordStepAfter(s: seq<Symbol>, groups: seq<seq<Element>>, x: Symbol, e: seq<Element>, durationOfQuarter: int, j: nat)
    requires |groups| == |s| && !IsAttributeSymbol(x)
    requires FirstAttributeSymbol(s) == Some(j) && FirstAttributeSymbol(s + [x]) == Some(j)
    ensures Layout(s + [x], groups + [e], durationOfQuarter) == Layout(s, groups, durationOfQuarter) + e
  {
    var q := durationOfQuarter;
    var block := Node(AttributesTag, AttributeItems(s, q));
    var front := Flatten(groups[..j]);
    var back := Flatten(groups[j + 1..]);
    assert Layout(s, groups, q) == front + [block] + back;
    assert AttributeItems(s + [x], q) == AttributeItems(s, q) by {
      AttributeItemsAppend(s, x, q);
      assert SymbolItems(x, q) == [];
    }
    LayoutAppended(s, groups, x, e, q, j);
    AppendAssoc(front + [block], back, e);
  }

  /** A clef or time signature symbol writes into the attributes block: the one
      already present, or a new one appended at the end. */
  lemma LayoutAttributeStep(header: seq<Element>, s: seq<Symbol>, groups: seq<seq<Element>>, x: Symbol, e: seq<Element>, durationOfQuarter: int)
    requires |groups| == |s| && IsAttributeSymbol(x) && e == []
    requires forall j :: 0 <= j < |header| ==> header[j].tag != AttributesTag
    requires forall k :: 0 <= k < |groups| ==> ChordTagged(groups[k])
    ensures WriteAttributes(header + Layout(s, groups, durationOfQuarter), SymbolItems(x, durationOfQuarter)) ==
      header + Layout(s + [x], groups + [e], durationOfQuarter)
  {
    FirstAttributeSymbolAppend(s, x);
    AttributeItemsAppend(s, x, durationOfQuarter);
    if FirstAttributeSymbol(s).None? {
      LayoutAttributeStepFirst(header, s, groups, x, durationOfQuarter);
    } else {
      LayoutAttributeStepLater(header, s, groups, x, durationOfQuarter, FirstAttributeSymbol(s).value);
    }
  }

  /** Writing into a measure without an attributes block appends a new one. */
  lemma WriteAttributesNew(cs: seq<Element>, items: seq<Element>)
    requires forall j :: 0 <= j < |cs| ==> cs[j].tag != AttributesTag
    ensures WriteAttributes(cs, items) == cs + [Node(AttributesTag, items)]
  {
    assert FirstWithTag(cs, AttributesTag).None?;
    assert [] + items == items;
  }

  /** Neither the header nor the chord elements are attributes blocks. */
  lemma NoAttributesBlock(header: seq<Element>, chords: seq<Element>)
    requires forall j :: 0 <= j < |header| ==> header[j].tag != AttributesTag
    requires ChordTagged(chords)
    ensures forall j :: 0 <= j < |header + chords| ==> (header + chords)[j].tag != AttributesTag
  {
    forall j | 0 <= j < |header + chords| ensures (header + chords)[j].tag != AttributesTag {
      if j >= |header| { assert (header + chords)[j] == chords[j - |header|]; }
    }
  }

  /** The first clef or time signature appends the attributes block after the chords. */
  lemma LayoutFirstAttribute(s: seq<Symbol>, groups: seq<seq<Element>>, x: Symbol, durationOfQuarter: int)
    requires |groups| == |s| && FirstAttributeSymbol(s + [x]) == Some(|s|)
    ensures Layout(s + [x], groups + [[]], durationOfQuarter) ==
      Flatten(groups) + [Node(AttributesTag, AttributeItems(s + [x], durationOfQuarter))]
  {
    var g := groups + [[]];
    assert g[..|s|] == groups;
    assert g[|s| + 1..] == [];
  }

  lemma LayoutAttributeStepFirst(header: seq<Element>, s: seq<Symbol>, groups: seq<seq<Element>>, x: Symbol, durationOfQuarter: int)
    requires |groups| == |s| && IsAttributeSymbol(x)
    requires forall j :: 0 <= j < |header| ==> header[j].tag != AttributesTag
    requires forall k :: 0 <= k < |groups| ==> ChordTagged(groups[k])
    requires FirstAttributeSymbol(s).None? && FirstAttributeSymbol(s + [x]) == Some(|s|)
    requires AttributeItems(s + [x], durationOfQuarter) == AttributeItems(s, durationOfQuarter) + SymbolItems(x, durationOfQuarter)
    ensures WriteAttributes(header + Layout(s, groups, durationOfQuarter), SymbolItems(x, durationOfQuarter)) ==
      header + Layout(s + [x], groups + [[]], durationOfQuarter)
  {
    var q := durationOfQuarter;
    var items := SymbolItems(x, q);
    var chords := Flatten(groups);
    assert Layout(s, groups, q) == chords;
    AttributeItemsNone(s, q);
    assert AttributeItems(s + [x], q) == items by {
      assert [] + items == items;
    }
    LayoutFirstAttribute(s, groups, x, q);
    FlattenTagged(groups);
    NoAttributesBlock(header, chords);
    WriteAttributesNew(header + chords, items);
  }

  /** Writing into the first attributes block, which follows `header + chords`. */
  lemma WriteIntoBlock(header: seq<Element>, chords: seq<Element>, block: Element, back: seq<Element>, items: seq<Element>)
    requires forall j :: 0 <= j < |header| ==> header[j].tag != AttributesTag
    requires ChordTagged(chords)
    requires block.tag == AttributesTag
    ensures WriteAttributes(header + (chords + [block] + back), items) ==
      header + (chords + [WithChildren(block, items)] + back)
  {
    var cs := header + (chords + [block] + back);
    var k := |header| + |chords|;
    assert cs[k] == block;
    assert forall j :: 0 <= j < k ==> cs[j].tag != AttributesTag by {
      forall j | 0 <= j < k ensures cs[j].tag != AttributesTag {
        if j < |header| { assert cs[j] == header[j]; } else { assert cs[j] == chords[j - |header|]; }
      }
    }
    FirstWithTagAt(cs, k, AttributesTag);
    assert cs[k := WithChildren(block, items)] == header + (chords + [WithChildren(block, items)] + back);
  }

  lemma FlattenPrefixTagged(groups: seq<seq<Element>>, j: nat)
    requires j <= |groups| && forall k :: 0 <= k < |groups| ==> ChordTagged(groups[k])
    ensures ChordTagged(Flatten(groups[..j]))
  {
    assert forall k :: 0 <= k < j ==> groups[..j][k] == groups[k];
    FlattenTagged(groups[..j]);
  }

  /** A symbol whose elements come after the attributes block leaves the
      groups in front of the block as they were and appends to those behind it. */
  lemma LayoutAppended(s: seq<Symbol>, groups: seq<seq<Element>>, x: Symbol, e: seq<Element>, durationOfQuarter: int, j: nat)
    requires |groups| == |s| && FirstAttributeSymbol(s + [x]) == Some(j) && j < |s|
    ensures Layout(s + [x], groups + [e], durationOfQuarter) ==
      Flatten(groups[..j]) + [Node(AttributesTag, AttributeItems(s + [x], durationOfQuarter))] + (Flatten(groups[j + 1..]) + e)
  {
    var g := groups + [e];
    assert g[..j] == groups[..j];
    assert g[j + 1..] == groups[j + 1..] + [e];
    FlattenAppend(groups[j + 1..], e);
  }

  lemma LayoutAttributeStepLater(header: seq<Element>, s: seq<Symbol>, groups: seq<seq<Element>>, x: Symbol, durationOfQuarter: int, j: nat)
    requires |groups| == |s| && IsAttributeSymbol(x)
    requires forall j :: 0 <= j < |header| ==> header[j].tag != AttributesTag
    requires forall k :: 0 <= k < |groups| ==> ChordTagged(groups[k])
    requires FirstAttributeSymbol(s) == Some(j) && FirstAttributeSymbol(s + [x]) == Some(j)
    requires AttributeItems(s + [x], durationOfQuarter) == AttributeItems(s, durationOfQuarter) + SymbolItems(x, durationOfQuarter)
    ensures WriteAttributes(header + Layout(s, groups, durationOfQuarter), SymbolItems(x, durationOfQuarter)) ==
      header + Layout(s + [x], groups + [[]], durationOfQuarter)
  {
    var q := durationOfQuarter;
    var items := SymbolItems(x, q);
    var chords := Flatten(groups[..j]);
    var block := Node(AttributesTag, AttributeItems(s, q));
    var back := Flatten(groups[j + 1..]);
    var grown := WithChildren(block, items);
    assert WriteAttributes(header + Layout(s, groups, q), items) == header + (chords + [grown] + back) by {
      assert Layout(s, groups, q) == chords + [block] + back;
      FlattenPrefixTagged(groups, j);
      WriteIntoBlock(header, chords, block, back, items);
    }
    assert Layout(s + [x], groups + [[]], q) == chords + [grown] + back by {
      LayoutLaterBlock(s, groups, x, q, j);
    }
  }

  /** A later clef or time signature grows the block at `j` and leaves the groups as they were. */
  lemma LayoutLaterBlock(s: seq<Symbol>, groups: seq<seq<Element>>, x: Symbol, durationOfQuarter: int, j: nat)
    requires |groups| == |s| && FirstAttributeSymbol(s) == Some(j) && FirstAttributeSymbol(s + [x]) == Some(j)
    requires AttributeItems(s + [x], durationOfQuarter) == AttributeItems(s, durationOfQuarter) + SymbolItems(x, durationOfQuarter)
    ensures Layout(s + [x], groups + [[]], durationOfQuarter) == Flatten(groups[..j]) +
      [WithChildren(Node(AttributesTag, AttributeItems(s, durationOfQuarter)), SymbolItems(x, durationOfQuarter))] +
      Flatten(groups[j + 1..])
  {
    var q := durationOfQuarter;
    NodeWithChildren(AttributesTag, AttributeItems(s, q), SymbolItems(x, q));
    LayoutAppended(s, groups, x, [], q, j);
    assert Flatten(groups[j + 1..]) + [] == Flatten(groups[j + 1..]);
  }

  lemma BuildableAppend(t: seq<Symbol>, x: Symbol)
    requires SymbolsBuildable(t) && (x.ChordSymbol? ==> Buildable(x.chord))
    ensures SymbolsBuildable(t + [x])
  {
    assert forall k :: 0 <= k < |t| ==> (t + [x])[k] == t[k];
  }

  /** One turn of `build_measure`'s symbol loop: a clef or a time signature
      writes into the measure's attributes block, a chord appends its elements.
      It fails exactly when the symbol is a chord that cannot be built. */
  method AddSymbol(result: MeasureNode, symbol: Symbol, durationOfQuarter: int) returns (ok: bool)
    modifies result
    ensures ok <==> (symbol.ChordSymbol? ==> Buildable(symbol.chord))
    ensures result.number == old(result.number)
    ensures ok && IsAttributeSymbol(symbol) ==>
      result.children == WriteAttributes(old(result.children), SymbolItems(symbol, durationOfQuarter))
    ensures ok && symbol.ChordSymbol? ==> result.children == old(result.children) + SymbolElements(symbol)
  {
    match symbol {
      case ClefSymbol(clef) =>
        var attributes := result.BuildOrGetAttributes();
        result.BuildClef(clef, attributes, durationOfQuarter);
      case TimeSymbol(time) =>
        var attributes := result.BuildOrGetAttributes();
        result.BuildTimeSignature(time, attributes);
      case ChordSymbol(chord) =>
        var elements := BuildChord(chord, None);
        if elements.Err? {
          return false;
        }
        ghost var before := result.children;
        for e := 0 to |elements.value|
          invariant result.number == old(result.number)
          invariant result.children == before + elements.value[..e]
        {
          result.AddChild(elements.value[e]);
          assert elements.value[..e + 1] == elements.value[..e] + [elements.value[e]];
        }
        assert elements.value[..|elements.value|] == elements.value;
    }
    ok := true;
  }

  /** One symbol more: both the chord groups and the measure's children follow
      what `AddSymbol` does. */
  lemma MeasureStep(header: seq<Element>, done: seq<Symbol>, groups: seq<seq<Element>>, x: Symbol, durationOfQuarter: int)
    requires SymbolsBuildable(done) && groups == ChordGroups(done)
    requires x.ChordSymbol? ==> Buildable(x.chord)
    requires forall j :: 0 <= j < |header| ==> header[j].tag == "direction" || header[j].tag == "print"
    ensures SymbolsBuildable(done + [x])
    ensures ChordGroups(done + [x]) == groups + [SymbolElements(x)]
    ensures IsAttributeSymbol(x) ==>
      WriteAttributes(header + Layout(done, groups, durationOfQuarter), SymbolItems(x, durationOfQuarter)) ==
      header + Layout(done + [x], groups + [SymbolElements(x)], durationOfQuarter)
    ensures !IsAttributeSymbol(x) ==>
      header + Layout(done + [x], groups + [SymbolElements(x)], durationOfQuarter) ==
      header + Layout(done, groups, durationOfQuarter) + SymbolElements(x)
  {
    BuildableAppend(done, x);
    ChordGroupsAppend(done, x);
    if IsAttributeSymbol(x) {
      LayoutAttributeStep(header, done, groups, x, SymbolElements(x), durationOfQuarter);
    } else {
      LayoutChordStep(header, done, groups, x, SymbolElements(x), durationOfQuarter);
    }
  }

  /** The symbol loop of `build_measure`, after the header: it stops at the
      first chord that cannot be built. */
  method AddSymbols(result: MeasureNode, symbols: seq<Symbol>, durationOfQuarter: int) returns (ok: bool)
    requires forall j :: 0 <= j < |result.children| ==> result.children[j].tag == "direction" || result.children[j].tag == "print"
    modifies result
    ensures result.number == old(result.number)
    ensures ok <==> SymbolsBuildable(symbols)
    ensures ok ==> result.children == old(result.children) + MeasureBody(symbols, durationOfQuarter)
  {
    ghost var header := result.children;
    ghost var groups: seq<seq<Element>> := [];
    for i := 0 to |symbols|
      invariant SymbolsBuildable(symbols[..i])
      invariant groups == ChordGroups(symbols[..i])
      invariant result.number == old(result.number)
      invariant result.children == header + Layout(symbols[..i], groups, durationOfQuarter)
    {
      var symbol := symbols[i];
      ghost var done := symbols[..i];
      assert symbols[..i + 1] == done + [symbol];
      ok := AddSymbol(result, symbol, durationOfQuarter);
      if !ok {
        assert symbols[i].ChordSymbol? && !Buildable(symbols[i].chord);
        return false;
      }
      ghost var e := SymbolElements(symbol);
      MeasureStep(header, done, groups, symbol, durationOfQuarter);
      groups := groups + [e];
    }
    assert symbols[..|symbols|] == symbols;
    ok := true;
  }

  /** `build_measure`: the header, then the symbols in order.  It fails exactly
      when one of the chords cannot be built. */
  method BuildMeasure(args: Arguments, measure: Measure, isFirstPart: bool, measureNumber: int, durationOfQuarter: int)
    returns (r: Result<Element, BuildError>)
    ensures r == MeasureResult(args, measure, isFirstPart, measureNumber, durationOfQuarter)
  {
    var result := new MeasureNode(IntToString(measureNumber));
    var isFirstMeasure := measureNumber == 1;
    if isFirstMeasure && isFirstPart {
      var direction := TimeDirection(args);
      if direction.Some? {
        result.AddChild(direction.value);
      }
    }
    if measure.isNewLine && !isFirstMeasure {
      result.AddChild(PrintElement());
    }
    assert result.children == MeasureHeader(args, isFirstPart, measureNumber, measure.isNewLine);
    var ok := AddSymbols(result, measure.symbols, durationOfQuarter);
    if !ok {
      return Err(EmptyNoteGroup);
    }
    r := Ok(result.ToElement());
  }

  // ---------------------------------------------------------------------------
  // What a measure holds
  // ---------------------------------------------------------------------------

  lemma ChordTaggedHasNoBlock(cs: seq<Element>)
    requires ChordTagged(cs)
    ensures WithTag(cs, AttributesTag) == [] && WithoutTag(cs, AttributesTag) == cs
    ensures CountTag(cs, AttributesTag) == 0 && CountTag(cs, "direction") == 0 && CountTag(cs, "print") == 0
  {
    WithTagAbsent(cs, AttributesTag);
    WithTagAbsent(cs, "direction");
    WithTagAbsent(cs, "print");
  }

  lemma SingleBlock(block: Element)
    requires block.tag == AttributesTag
    ensures WithTag([block], AttributesTag) == [block] && WithoutTag([block], AttributesTag) == []
    ensures CountTag([block], "direction") == 0 && CountTag([block], "print") == 0
  {
    assert [block][1..] == [];
  }

  lemma BlockBetweenChords(front: seq<Element>, block: Element, back: seq<Element>)
    requires ChordTagged(front) && ChordTagged(back) && block.tag == AttributesTag
    ensures WithTag(front + [block] + back, AttributesTag) == [block]
    ensures WithoutTag(front + [block] + back, AttributesTag) == front + back
  {
    var t := AttributesTag;
    ChordTaggedHasNoBlock(front);
    ChordTaggedHasNoBlock(back);
    SingleBlock(block);
    WithTagConcat(front + [block], back, t);
    WithTagConcat(front, [block], t);
    assert WithTag(front + [block], t) == [block] by {
      assert WithTag(front + [block], t) == [] + [block];
    }
    assert WithoutTag(front + [block], t) == front by {
      assert WithoutTag(front + [block], t) == front + [];
    }
    assert WithTag(front + [block] + back, t) == [block] + [];
  }

  lemma BlockBetweenChordsCounts(front: seq<Element>, block: Element, back: seq<Element>)
    requires ChordTagged(front) && ChordTagged(back) && block.tag == AttributesTag
    ensures CountTag(front + [block] + back, "direction") == 0 && CountTag(front + [block] + back, "print") == 0
  {
    ChordTaggedHasNoBlock(front);
    ChordTaggedHasNoBlock(back);
    SingleBlock(block);
    CountTagConcat(front + [block], back, "direction");
    CountTagConcat(front, [block], "direction");
    CountTagConcat(front + [block], back, "print");
    CountTagConcat(front, [block], "print");
  }

  lemma FlattenSuffixTagged(groups: seq<seq<Element>>, j: nat)
    requires j <= |groups| && forall k :: 0 <= k < |groups| ==> ChordTagged(groups[k])
    ensures ChordTagged(Flatten(groups[j..]))
  {
    assert forall k :: 0 <= k < |groups| - j ==> groups[j..][k] == groups[j + k];
    FlattenTagged(groups[j..]);
  }

  /** Groups split around an empty group at `j` flatten to the two sides. */
  lemma FlattenAroundEmpty(groups: seq<seq<Element>>, j: nat)
    requires j < |groups| && groups[j] == []
    ensures Flatten(groups) == Flatten(groups[..j]) + Flatten(groups[j + 1..])
  {
    var a, c := groups[..j], groups[j + 1..];
    assert groups == (a + [[]]) + c;
    FlattenConcat(a + [[]], c);
    FlattenAppend(a, []);
    assert Flatten(a) + [] == Flatten(a);
  }

  /** `Layout` over chord-only groups, with nothing in the group of the symbol
      that created the block: the block is its only non-chord element. */
  lemma LayoutContent(symbols: seq<Symbol>, groups: seq<seq<Element>>, durationOfQuarter: int)
    requires |groups| == |symbols| && forall k :: 0 <= k < |groups| ==> ChordTagged(groups[k])
    requires FirstAttributeSymbol(symbols).Some? ==> groups[FirstAttributeSymbol(symbols).value] == []
    ensures var body := Layout(symbols, groups, durationOfQuarter);
      && WithoutTag(body, AttributesTag) == Flatten(groups)
      && WithTag(body, AttributesTag) ==
         (if FirstAttributeSymbol(symbols).Some? then [Node(AttributesTag, AttributeItems(symbols, durationOfQuarter))] else [])
      && CountTag(body, "direction") == 0 && CountTag(body, "print") == 0
  {
    match FirstAttributeSymbol(symbols)
    case None =>
      FlattenTagged(groups);
      ChordTaggedHasNoBlock(Flatten(groups));
    case Some(j) =>
      LayoutContentAt(symbols, groups, durationOfQuarter, j);
  }

  /** `LayoutContent` when the block was created by the symbol at `j`. */
  lemma LayoutContentAt(symbols: seq<Symbol>, groups: seq<seq<Element>>, durationOfQuarter: int, j: nat)
    requires |groups| == |symbols| && forall k :: 0 <= k < |groups| ==> ChordTagged(groups[k])
    requires FirstAttributeSymbol(symbols) == Some(j) && groups[j] == []
    ensures var body := Layout(symbols, groups, durationOfQuarter);
      && WithoutTag(body, AttributesTag) == Flatten(groups)
      && WithTag(body, AttributesTag) == [Node(AttributesTag, AttributeItems(symbols, durationOfQuarter))]
      && CountTag(body, "direction") == 0 && CountTag(body, "print") == 0
  {
    var items := AttributeItems(symbols, durationOfQuarter);
    var front, back := Flatten(groups[..j]), Flatten(groups[j + 1..]);
    var body := Layout(symbols, groups, durationOfQuarter);
    assert body == front + [Node(AttributesTag, items)] + back;
    GroupsAroundEmpty(groups, j);
    BlockInBody(body, front, items, back, Flatten(groups));
  }

  /** A body made of chord elements around one attributes block. */
  lemma BlockInBody(body: seq<Element>, front: seq<Element>, items: seq<Element>, back: seq<Element>, chords: seq<Element>)
    requires ChordTagged(front) && ChordTagged(back)
    requires body == front + [Node(AttributesTag, items)] + back && chords == front + back
    ensures WithoutTag(body, AttributesTag) == chords
    ensures WithTag(body, AttributesTag) == [Node(AttributesTag, items)]
    ensures CountTag(body, "direction") == 0 && CountTag(body, "print") == 0
  {
    BlockBetweenChords(front, Node(AttributesTag, items), back);
    BlockBetweenChordsCounts(front, Node(AttributesTag, items), back);
  }

  /** Chord-only groups split around the empty group `j`: both sides hold only
      chord elements, and together they flatten to all the groups. */
  lemma GroupsAroundEmpty(groups: seq<seq<Element>>, j: nat)
    requires j < |groups| && forall k :: 0 <= k < |groups| ==> ChordTagged(groups[k])
    requires groups[j] == []
    ensures ChordTagged(Flatten(groups[..j])) && ChordTagged(Flatten(groups[j + 1..]))
    ensures Flatten(groups) == Flatten(groups[..j]) + Flatten(groups[j + 1..])
  {
    FlattenPrefixTagged(groups, j);
    FlattenSuffixTagged(groups, j + 1);
    FlattenAroundEmpty(groups, j);
  }

  /** Removing the attributes block from a measure's body leaves exactly the chord
      elements, in symbol order; the block itself is there exactly when a clef or
      time signature occurs, and then holds what every one of them wrote, in order.
      The body carries no direction and no system break. */
  lemma MeasureBodyContent(symbols: seq<Symbol>, durationOfQuarter: int)
    requires SymbolsBuildable(symbols)
    ensures var body := MeasureBody(symbols, durationOfQuarter);
      && WithoutTag(body, AttributesTag) == Chords(symbols)
      && WithTag(body, AttributesTag) ==
         (if FirstAttributeSymbol(symbols).Some? then [Node(AttributesTag, AttributeItems(symbols, durationOfQuarter))] else [])
      && CountTag(body, "direction") == 0 && CountTag(body, "print") == 0
  {
    LayoutContent(symbols, ChordGroups(symbols), durationOfQuarter);
  }

  /** A measure has at most one attributes block, and one exactly when it has a
      clef or a time signature; a time direction exactly on measure 1 of the first
      part when a metronome value is set, and then as its first child; a system
      break exactly on a new line other than measure 1. */
  lemma MeasureContent(args: Arguments, measure: Measure, isFirstPart: bool, number: int, durationOfQuarter: int)
    requires SymbolsBuildable(measure.symbols)
    ensures var m := MeasureElement(args, measure, isFirstPart, number, durationOfQuarter);
      && CountTag(m.children, AttributesTag) == (if FirstAttributeSymbol(measure.symbols).Some? then 1 else 0)
      && CountTag(m.children, "direction") == (if number == 1 && isFirstPart && Truthy(args.metronome) then 1 else 0)
      && CountTag(m.children, "print") == (if measure.isNewLine && number != 1 then 1 else 0)
      && (number == 1 && isFirstPart && Truthy(args.metronome) ==> m.children[0] == TimeDirection(args).value)
  {
    var header := MeasureHeader(args, isFirstPart, number, measure.isNewLine);
    var body := MeasureBody(measure.symbols, durationOfQuarter);
    var direction: seq<Element> := if number == 1 && isFirstPart && TimeDirection(args).Some? then [TimeDirection(args).value] else [];
    var systemBreak: seq<Element> := if measure.isNewLine && number != 1 then [PrintElement()] else [];
    MeasureBodyContent(measure.symbols, durationOfQuarter);
    WithTagCount(body, AttributesTag);
    assert header == direction + systemBreak;
    CountTagConcat(header, body, AttributesTag);
    CountTagConcat(header, body, "direction");
    CountTagConcat(header, body, "print");
    CountTagConcat(direction, systemBreak, AttributesTag);
    CountTagConcat(direction, systemBreak, "direction");
    CountTagConcat(direction, systemBreak, "print");
    if direction != [] {
      CountTagOnce(direction, 0, "direction");
    }
    if systemBreak != [] {
      CountTagOnce(systemBreak, 0, "print");
    }
  }

  // ---------------------------------------------------------------------------
  // Parts and the document
  // ---------------------------------------------------------------------------

  /** Every measure of the staff can be built. */
  predicate StaffBuildable(staff: Staff) {
    forall k :: 0 <= k < |staff.measures| ==> SymbolsBuildable(staff.measures[k].symbols)
  }

  /** The elements of `measures`, numbered from 1 in order: the one at `k` is
      measure `k` built as number `k + 1`. */
  function NumberedMeasures(args: Arguments, measures: seq<Measure>, isFirstPart: bool, durationOfQuarter: int): seq<Element>
    requires forall k :: 0 <= k < |measures| ==> SymbolsBuildable(measures[k].symbols)
  {
    seq(|measures|, k requires 0 <= k < |measures| && SymbolsBuildable(measures[k].symbols) =>
      MeasureElement(args, measures[k], isFirstPart, k + 1, durationOfQuarter))
  }

  /** One measure more: it is appended with the next number. */
  lemma NumberedMeasuresStep(args: Arguments, measures: seq<Measure>, isFirstPart: bool, durationOfQuarter: int, i: nat)
    requires i < |measures| && forall k :: 0 <= k <= i ==> SymbolsBuildable(measures[k].symbols)
    ensures NumberedMeasures(args, measures[..i + 1], isFirstPart, durationOfQuarter) ==
      NumberedMeasures(args, measures[..i], isFirstPart, durationOfQuarter) +
      [MeasureElement(args, measures[i], isFirstPart, i + 1, durationOfQuarter)]
  {
    var longer := NumberedMeasures(args, measures[..i + 1], isFirstPart, durationOfQuarter);
    var shorter := NumberedMeasures(args, measures[..i], isFirstPart, durationOfQuarter);
    var both := shorter + [MeasureElement(args, measures[i], isFirstPart, i + 1, durationOfQuarter)];
    assert |longer| == |both|;
    forall k | 0 <= k < |both| ensures longer[k] == both[k] {
      if k < i {
        assert measures[..i + 1][k] == measures[..i][k];
        assert both[k] == shorter[k];
      } else {
        assert measures[..i + 1][k] == measures[i];
      }
    }
  }

  /** The `part` element `build_part` returns when every measure can be built:
      the measures numbered from 1 in staff order; the part at index 0 is the
      first part. */
  function PartElement(args: Arguments, staff: Staff, index: int, durationOfQuarter: int): (r: Element)
    requires StaffBuildable(staff)
    ensures r.tag == "part" && r.attrs == map["id" := PartId(index)] && |r.children| == |staff.measures|
  {
    Element("part", map["id" := PartId(index)], NoValue, NumberedMeasures(args, staff.measures, index == 0, durationOfQuarter))
  }

  function PartResult(args: Arguments, staff: Staff, index: int, durationOfQuarter: int): Result<Element, BuildError> {
    if StaffBuildable(staff) then Ok(PartElement(args, staff, index, durationOfQuarter)) else Err(EmptyNoteGroup)
  }

  /** `build_part`: the staff's measures, numbered 1, 2, ... in order.  It fails
      exactly when one of the measures cannot be built. */
  method BuildPart(args: Arguments, staff: Staff, index: int, durationOfQuarter: int)
    returns (r: Result<Element, BuildError>)
    ensures r == PartResult(args, staff, index, durationOfQuarter)
  {
    var children: seq<Element> := [];
    var measureNumber := 1;
    var isFirstPart := index == 0;
    var measures := staff.measures;
    for i := 0 to |measures|
      invariant measureNumber == i + 1
      invariant forall k :: 0 <= k < i ==> SymbolsBuildable(measures[k].symbols)
      invariant children == NumberedMeasures(args, measures[..i], isFirstPart, durationOfQuarter)
    {
      var m := BuildMeasure(args, measures[i], isFirstPart, measureNumber, durationOfQuarter);
      if m.Err? {
        return Err(EmptyNoteGroup);
      }
      NumberedMeasuresStep(args, measures, isFirstPart, durationOfQuarter, i);
      children := children + [m.value];
      measureNumber := measureNumber + 1;
    }
    assert measures[..|measures|] == measures;
    r := Ok(Element("part", map["id" := PartId(index)], NoValue, children));
  }

  /** A part holds one measure per staff measure, numbered "1", "2", ... in
      order, with pairwise distinct numbers; the measure at position `k` is the
      one `build_measure` makes from the staff's measure `k` as number `k + 1`. */
  lemma PartContent(args: Arguments, staff: Staff, index: int, durationOfQuarter: int)
    requires StaffBuildable(staff)
    ensures var p := PartElement(args, staff, index, durationOfQuarter);
      && |p.children| == |staff.measures|
      && (forall k :: 0 <= k < |p.children| ==>
            p.children[k] == MeasureElement(args, staff.measures[k], index == 0, k + 1, durationOfQuarter))
      && (forall k :: 0 <= k < |p.children| ==> p.children[k].attrs == map["number" := IntToString(k + 1)])
      && (forall i, j :: 0 <= i < j < |p.children| ==> p.children[i].attrs != p.children[j].attrs)
  {
    var ms := NumberedMeasures(args, staff.measures, index == 0, durationOfQuarter);
    assert PartElement(args, staff, index, durationOfQuarter).children == ms;
    MeasureNumbers(args, staff.measures, index == 0, durationOfQuarter);
    NumbersDistinct(ms);
  }

  /** The measure at position `k` is staff measure `k` built as number `k + 1`. */
  lemma MeasureNumbers(args: Arguments, measures: seq<Measure>, isFirstPart: bool, durationOfQuarter: int)
    requires forall k :: 0 <= k < |measures| ==> SymbolsBuildable(measures[k].symbols)
    ensures var ms := NumberedMeasures(args, measures, isFirstPart, durationOfQuarter);
      && |ms| == |measures|
      && (forall k :: 0 <= k < |ms| ==> ms[k] == MeasureElement(args, measures[k], isFirstPart, k + 1, durationOfQuarter))
      && (forall k :: 0 <= k < |ms| ==> ms[k].attrs == map["number" := IntToString(k + 1)])
  {
    var ms := NumberedMeasures(args, measures, isFirstPart, durationOfQuarter);
    forall k | 0 <= k < |ms| ensures ms[k].attrs == map["number" := IntToString(k + 1)] {
      assert ms[k] == MeasureElement(args, measures[k], isFirstPart, k + 1, durationOfQuarter);
    }
  }

  /** Elements numbered "1", "2", ... in order carry pairwise distinct numbers. */
  lemma NumbersDistinct(ms: seq<Element>)
    requires forall k :: 0 <= k < |ms| ==> ms[k].attrs == map["number" := IntToString(k + 1)]
    ensures forall i, j :: 0 <= i < j < |ms| ==> ms[i].attrs != ms[j].attrs
  {
    forall i, j | 0 <= i < j < |ms| ensures ms[i].attrs != ms[j].attrs {
      assert ms[i].attrs["number"] == IntToString(i + 1);
      assert ms[j].attrs["number"] == IntToString(j + 1);
      if IntToString(i + 1) == IntToString(j + 1) {
        IntToStringInjective(i + 1, j + 1);
      }
    }
  }

  /** The measure at position `k` of part `index` has its time direction exactly
      when it is measure 1 of the first part and a metronome value is set, and a
      system break exactly when its staff measure starts a new line and it is not
      measure 1. */
  lemma PartMeasureMarks(args: Arguments, staff: Staff, index: int, durationOfQuarter: int, k: nat)
    requires StaffBuildable(staff) && k < |staff.measures|
    ensures var m := PartElement(args, staff, index, durationOfQuarter).children[k];
      && CountTag(m.children, "direction") == (if index == 0 && k == 0 && Truthy(args.metronome) then 1 else 0)
      && CountTag(m.children, "print") == (if staff.measures[k].isNewLine && k != 0 then 1 else 0)
  {
    PartContent(args, staff, index, durationOfQuarter);
    assert PartElement(args, staff, index, durationOfQuarter).children[k] ==
      MeasureElement(args, staff.measures[k], index == 0, k + 1, durationOfQuarter);
    MeasureContent(args, staff.measures[k], index == 0, k + 1, durationOfQuarter);
  }

  /** Every staff can be built. */
  predicate StaffsBuildable(staffs: seq<Staff>) {
    forall i :: 0 <= i < |staffs| ==> StaffBuildable(staffs[i])
  }

  /** The parts, one per staff, in staff order. */
  function Parts(args: Arguments, staffs: seq<Staff>, durationOfQuarter: int): seq<Element>
    requires StaffsBuildable(staffs)
  {
    if staffs == [] then []
    else
      var n := |staffs| - 1;
      Parts(args, staffs[..n], durationOfQuarter) + [PartElement(args, staffs[n], n, durationOfQuarter)]
  }

  /** One staff more: its part is appended with the next index. */
  lemma PartsStep(args: Arguments, staffs: seq<Staff>, durationOfQuarter: int, i: nat)
    requires i < |staffs| && StaffsBuildable(staffs[..i]) && StaffBuildable(staffs[i])
    ensures StaffsBuildable(staffs[..i + 1])
    ensures Parts(args, staffs[..i + 1], durationOfQuarter) ==
      Parts(args, staffs[..i], durationOfQuarter) + [PartElement(args, staffs[i], i, durationOfQuarter)]
  {
    assert staffs[..i + 1][..i] == staffs[..i];
    assert forall k :: 0 <= k < i ==> staffs[..i + 1][k] == staffs[..i][k];
  }

  /** There is one part per staff, and the one at `i` is staff `i` built as part `i`. */
  lemma {:induction false} PartsAt(args: Arguments, staffs: seq<Staff>, durationOfQuarter: int)
    requires StaffsBuildable(staffs)
    ensures var r := Parts(args, staffs, durationOfQuarter);
      |r| == |staffs| && forall i :: 0 <= i < |r| ==> r[i] == PartElement(args, staffs[i], i, durationOfQuarter)
  {
    if staffs != [] {
      var n := |staffs| - 1;
      var front := staffs[..n];
      var r := Parts(args, staffs, durationOfQuarter);
      var rf := Parts(args, front, durationOfQuarter);
      PartsAt(args, front, durationOfQuarter);
      assert r == rf + [PartElement(args, staffs[n], n, durationOfQuarter)];
      forall i | 0 <= i < |r| ensures r[i] == PartElement(args, staffs[i], i, durationOfQuarter) {
        if i < n {
          assert r[i] == rf[i] && front[i] == staffs[i];
        } else {
          assert i == n && r[i] == PartElement(args, staffs[n], n, durationOfQuarter);
        }
      }
    }
  }

  /** The `score-partwise` root `generate_xml` returns when every staff can be built. */
  function Document(args: Arguments, staffs: seq<Staff>, title: string, durationOfQuarter: int): (r: Element)
    requires StaffsBuildable(staffs)
    ensures r.tag == "score-partwise" && |r.children| == 3 + |staffs|
  {
    PartsAt(args, staffs, durationOfQuarter);
    Node("score-partwise", [BuildWork(title), BuildDefaults(args), PartList(|staffs|)] + Parts(args, staffs, durationOfQuarter))
  }

  function GenerateResult(args: Arguments, staffs: seq<Staff>, title: string, durationOfQuarter: int): Result<Element, BuildError> {
    if StaffsBuildable(staffs) then Ok(Document(args, staffs, title, durationOfQuarter)) else Err(EmptyNoteGroup)
  }

  /** `generate_xml`: work, defaults and the roster, then one part per staff.
      It fails exactly when one of the staffs cannot be built. */
  method GenerateXml(args: Arguments, staffs: seq<Staff>, title: string, durationOfQuarter: int)
    returns (r: Result<Element, BuildError>)
    ensures r == GenerateResult(args, staffs, title, durationOfQuarter)
  {
    var partList := BuildPartList(|staffs|);
    var children := [BuildWork(title), BuildDefaults(args), partList];
    ghost var head := children;
    for index := 0 to |staffs|
      invariant StaffsBuildable(staffs[..index])
      invariant children == head + Parts(args, staffs[..index], durationOfQuarter)
    {
      var part := BuildPart(args, staffs[index], index, durationOfQuarter);
      if part.Err? {
        return Err(EmptyNoteGroup);
      }
      PartsStep(args, staffs, durationOfQuarter, index);
      children := children + [part.value];
    }
    assert staffs[..|staffs|] == staffs;
    r := Ok(Node("score-partwise", children));
  }

  /** The document holds the work with its title, the defaults and the roster,
      and then one part per staff, in order. */
  lemma DocumentStructure(args: Arguments, staffs: seq<Staff>, title: string, durationOfQuarter: int)
    requires StaffsBuildable(staffs)
    ensures var d := Document(args, staffs, title, durationOfQuarter);
      && |d.children| == 3 + |staffs|
      && d.children[0] == BuildWork(title) && ChildValue(d.children[0], "work-title") == Some(Text(title))
      && d.children[1] == BuildDefaults(args)
      && d.children[2] == PartList(|staffs|)
      && forall i :: 0 <= i < |staffs| ==> d.children[3..][i] == PartElement(args, staffs[i], i, durationOfQuarter)
  {
    assert Document(args, staffs, title, durationOfQuarter).children[3..] == Parts(args, staffs, durationOfQuarter);
    PartsAt(args, staffs, durationOfQuarter);
  }

  /** Part `i` carries the identifier the roster lists at position `i`, and no
      two parts share an identifier. */
  lemma DocumentPartIds(args: Arguments, staffs: seq<Staff>, title: string, durationOfQuarter: int)
    requires StaffsBuildable(staffs)
    ensures var d := Document(args, staffs, title, durationOfQuarter);
      && |d.children| == 3 + |staffs| && |d.children[2].children| == |staffs|
      && (forall i :: 0 <= i < |staffs| ==>
            d.children[3..][i].tag == "part" && d.children[3..][i].attrs == map["id" := d.children[2].children[i].attrs["id"]])
      && (forall i, j :: 0 <= i < j < |staffs| ==> d.children[3..][i].attrs != d.children[3..][j].attrs)
  {
    var d := Document(args, staffs, title, durationOfQuarter);
    var parts := Parts(args, staffs, durationOfQuarter);
    assert d.children[3..] == parts;
    PartsAt(args, staffs, durationOfQuarter);
    PartListRoster(|staffs|);
    forall i, j | 0 <= i < j < |staffs| ensures parts[i].attrs != parts[j].attrs {
      assert parts[i].attrs["id"] == PartId(i) && parts[j].attrs["id"] == PartId(j);
      if PartId(i) == PartId(j) {
        PartIdInjective(i, j);
      }
    }
  }

  /** Across the whole document, a time direction occurs only in measure 1 of the
      first part, and there exactly when a metronome value is set. */
  lemma DocumentTempoOnce(args: Arguments, staffs: seq<Staff>, title: string, durationOfQuarter: int, i: nat, k: nat)
    requires StaffsBuildable(staffs) && i < |staffs| && k < |staffs[i].measures|
    ensures var d := Document(args, staffs, title, durationOfQuarter);
      && d.children[3 + i] == PartElement(args, staffs[i], i, durationOfQuarter)
      && CountTag(d.children[3 + i].children[k].children, "direction") == (if i == 0 && k == 0 && Truthy(args.metronome) then 1 else 0)
  {
    var d := Document(args, staffs, title, durationOfQuarter);
    PartsAt(args, staffs, durationOfQuarter);
    assert d.children[3 + i] == Parts(args, staffs, durationOfQuarter)[i];
    PartMeasureMarks(args, staffs[i], i, durationOfQuarter, k);
  }
}
