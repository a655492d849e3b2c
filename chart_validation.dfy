/**
 * The raw chart document and `ChartData.validate`: required sections and
 * fields in a fixed order, then every note in index order; the first
 * violation is the error reported.
 */
module ChartValidation {
  import opened JsValues
  import opened Wrappers

  datatype BpmChange = BpmChange(time: real, bpm: Value)
  datatype TimeSignature = TimeSignature(time: real, numerator: Value, denominator: Value)
  datatype Section = Section(startTime: real, endTime: real, name: string)

  /** `raw.notes`: an array of notes, or some other value, truthy or not. */
  datatype NoteList = NotesArray(items: seq<RawNote>) | NotArray(truthy: bool)

  /**
   * A parsed chart document. `meta`, `timing` are the section values
   * (only their truthiness matters); `title`, `bpm`, `bpmInit` (that is,
   * `meta.bpm.init`), `difficulty` and `offset` are field values.
   * `bpmChanges`, `timeSignatures` and `sections` are `None` when absent or
   * falsy.
   */
  datatype RawChart = RawChart(
    meta: Value, title: Value, bpm: Value, bpmInit: Value, difficulty: Value,
    timing: Value, offset: Value,
    bpmChanges: Option<seq<BpmChange>>, timeSignatures: Option<seq<TimeSignature>>,
    sections: Option<seq<Section>>, notes: NoteList)

  datatype ChartError =
    | MissingSection(section: string)
    | MissingField(section: string, field: string)
    | NotesNotArray
    | NoteNotObject(index: nat)
    | NoteMissingTime(index: nat)
    | NoteMissingZone(index: nat)
    | HoldMissingDuration(index: nat)
    | ChainMissingData(index: nat)
    | MultiZoneNotArray(index: nat)
    | TypeError(reason: string)

  predicate IsNoteError(e: ChartError)
  {
    e.NoteNotObject? || e.NoteMissingTime? || e.NoteMissingZone? || e.HoldMissingDuration?
    || e.ChainMissingData? || e.MultiZoneNotArray?
  }

  /** The `required` table: each section and the fields it must define. */
  const Required: seq<(string, seq<string>)> :=
    [("meta", ["title", "bpm"]), ("timing", ["offset"]), ("notes", [])]

  /** `!!raw[section]`. */
  predicate SectionPresent(raw: RawChart, section: string)
  {
    match section
    case "meta" => Truthy(raw.meta)
    case "timing" => Truthy(raw.timing)
    case "notes" => raw.notes.NotesArray? || raw.notes.truthy
    case _ => false
  }

  /** `raw[section][field]`. */
  function FieldValue(raw: RawChart, section: string, field: string): Value
  {
    if section == "meta" && field == "title" then raw.title
    else if section == "meta" && field == "bpm" then raw.bpm
    else if section == "timing" && field == "offset" then raw.offset
    else Undefined
  }

  /** The first field of `fields` (from `i` on) that is undefined. */
  function CheckFields(raw: RawChart, section: string, fields: seq<string>, i: nat): Outcome<ChartError>
    requires i <= |fields|
    decreases |fields| - i
  {
    if i == |fields| then Pass
    else if FieldValue(raw, section, fields[i]) == Undefined then Fail(MissingField(section, fields[i]))
    else CheckFields(raw, section, fields, i + 1)
  }

  /** The section loop of `validate`, from entry `i` of `Required` on. */
  function CheckSections(raw: RawChart, i: nat): Outcome<ChartError>
    requires i <= |Required|
    decreases |Required| - i
  {
    if i == |Required| then Pass
    else if !SectionPresent(raw, Required[i].0) then Fail(MissingSection(Required[i].0))
    else
      var fields := CheckFields(raw, Required[i].0, Required[i].1, 0);
      if fields.Fail? then fields else CheckSections(raw, i + 1)
  }

  /** The checks applied to note `i`, in the order the source makes them. */
  function CheckNote(n: RawNote, i: nat): Outcome<ChartError>
  {
    match n
    case NullNote => Fail(NoteNotObject(i))
    case Note(time, zone, kind, hold, chainLength, chainInterval) =>
      if time == Undefined then Fail(NoteMissingTime(i))
      else if zone == Undefined then Fail(NoteMissingZone(i))
      else if !Truthy(kind) then Pass
      else if kind == Str("hold") && !Truthy(hold) then Fail(HoldMissingDuration(i))
      else if kind == Str("chain") && (!Truthy(chainLength) || !Truthy(chainInterval)) then Fail(ChainMissingData(i))
      else if kind == Str("multi") && !zone.Arr? then Fail(MultiZoneNotArray(i))
      else Pass
  }

  /** The note loop from index `i` on. */
  function CheckNotes(notes: seq<RawNote>, i: nat): Outcome<ChartError>
    requires i <= |notes|
    decreases |notes| - i
  {
    if i == |notes| then Pass
    else if CheckNote(notes[i], i).Fail? then CheckNote(notes[i], i)
    else CheckNotes(notes, i + 1)
  }

  /** The outcome `validate` produces: pass, or the first violation. */
  function ValidationResult(raw: RawChart): Outcome<ChartError>
  {
    var sections := CheckSections(raw, 0);
    if sections.Fail? then sections
    else if !raw.notes.NotesArray? then Fail(NotesNotArray)
    else CheckNotes(raw.notes.items, 0)
  }

  /** `validate()`: loops over the required table and the notes, stopping at the first failure. */
  method Validate(raw: RawChart) returns (o: Outcome<ChartError>)
    ensures o == ValidationResult(raw)
  {
    for s := 0 to |Required|
      invariant CheckSections(raw, 0) == CheckSections(raw, s)
    {
      var (section, fields) := Required[s];
      if !SectionPresent(raw, section) {
        return Fail(MissingSection(section));
      }
      for f := 0 to |fields|
        invariant CheckFields(raw, section, fields, 0) == CheckFields(raw, section, fields, f)
      {
        if FieldValue(raw, section, fields[f]) == Undefined {
          return Fail(MissingField(section, fields[f]));
        }
      }
    }
    if !raw.notes.NotesArray? {
      return Fail(NotesNotArray);
    }
    var notes := raw.notes.items;
    for i := 0 to |notes|
      invariant CheckNotes(notes, 0) == CheckNotes(notes, i)
    {
      var r := CheckNote(notes[i], i);
      if r.Fail? {
        return r;
      }
    }
    return Pass;
  }

  /** The header part: sections present and required fields defined. */
  predicate HeaderOk(raw: RawChart)
  {
    Truthy(raw.meta) && raw.title != Undefined && raw.bpm != Undefined
    && Truthy(raw.timing) && raw.offset != Undefined
    && (raw.notes.NotesArray? || raw.notes.truthy)
  }

  lemma {:induction false} SectionsPassExactly(raw: RawChart)
    ensures CheckSections(raw, 0).Pass? <==> HeaderOk(raw)
  {
    assert CheckSections(raw, 3) == Pass;
    assert CheckFields(raw, "notes", [], 0) == Pass;
    assert CheckFields(raw, "timing", ["offset"], 1) == Pass;
    assert CheckFields(raw, "meta", ["title", "bpm"], 2) == Pass;
  }

  lemma {:induction false} NotesPassExactly(notes: seq<RawNote>, i: nat)
    requires i <= |notes|
    ensures CheckNotes(notes, i).Pass? <==> forall j :: i <= j < |notes| ==> CheckNote(notes[j], j).Pass?
    decreases |notes| - i
  {
    if i < |notes| {
      NotesPassExactly(notes, i + 1);
    }
  }

  /** A chart is accepted exactly when every section, field and note check passes. */
  lemma ValidationAcceptsExactly(raw: RawChart)
    ensures ValidationResult(raw).Pass? <==>
      HeaderOk(raw) && raw.notes.NotesArray?
      && forall j :: 0 <= j < |raw.notes.items| ==> CheckNote(raw.notes.items[j], j).Pass?
  {
    SectionsPassExactly(raw);
    if raw.notes.NotesArray? {
      NotesPassExactly(raw.notes.items, 0);
    }
  }

  /** A chart without `meta.title`, `meta.bpm` or `timing.offset` is rejected. */
  lemma RejectsMissingRequiredField(raw: RawChart)
    requires raw.title == Undefined || raw.bpm == Undefined || raw.offset == Undefined
    ensures ValidationResult(raw).Fail?
    ensures !IsNoteError(ValidationResult(raw).error)
  {
    SectionsPassExactly(raw);
  }

  /** The header is checked in order: meta, meta.title, meta.bpm, timing, timing.offset, notes. */
  lemma HeaderOrder(raw: RawChart)
    ensures !Truthy(raw.meta) ==> ValidationResult(raw) == Fail(MissingSection("meta"))
    ensures Truthy(raw.meta) && raw.title == Undefined ==>
      ValidationResult(raw) == Fail(MissingField("meta", "title"))
    ensures Truthy(raw.meta) && raw.title != Undefined && raw.bpm == Undefined ==>
      ValidationResult(raw) == Fail(MissingField("meta", "bpm"))
    ensures Truthy(raw.meta) && raw.title != Undefined && raw.bpm != Undefined && !Truthy(raw.timing) ==>
      ValidationResult(raw) == Fail(MissingSection("timing"))
    ensures (Truthy(raw.meta) && raw.title != Undefined && raw.bpm != Undefined && Truthy(raw.timing)
             && raw.offset == Undefined) ==> ValidationResult(raw) == Fail(MissingField("timing", "offset"))
    ensures HeaderOk(raw) && !raw.notes.NotesArray? ==> ValidationResult(raw) == Fail(NotesNotArray)
    ensures (raw.notes == NotArray(false) && Truthy(raw.meta) && raw.title != Undefined
             && raw.bpm != Undefined && Truthy(raw.timing) && raw.offset != Undefined) ==>
      ValidationResult(raw) == Fail(MissingSection("notes"))
  {
    assert CheckSections(raw, 3) == Pass;
    assert CheckFields(raw, "notes", [], 0) == Pass;
    assert CheckFields(raw, "timing", ["offset"], 1) == Pass;
    assert CheckFields(raw, "meta", ["title", "bpm"], 2) == Pass;
  }

  lemma {:induction false} FirstFailingNoteFrom(notes: seq<RawNote>, i: nat)
    requires i <= |notes|
    requires CheckNotes(notes, i).Fail?
    ensures exists k :: (i <= k < |notes| && CheckNotes(notes, i) == CheckNote(notes[k], k)
                         && (forall j :: i <= j < k ==> CheckNote(notes[j], j).Pass?))
    decreases |notes| - i
  {
    if CheckNote(notes[i], i).Pass? {
      FirstFailingNoteFrom(notes, i + 1);
      var k :| i + 1 <= k < |notes| && CheckNotes(notes, i + 1) == CheckNote(notes[k], k)
        && (forall j :: i + 1 <= j < k ==> CheckNote(notes[j], j).Pass?);
      assert CheckNotes(notes, i) == CheckNote(notes[k], k);
    } else {
      assert CheckNotes(notes, i) == CheckNote(notes[i], i);
    }
  }

  /** A rejected note is the first failing one, and the error names its index. */
  lemma FirstFailingNote(raw: RawChart)
    requires ValidationResult(raw).Fail? && IsNoteError(ValidationResult(raw).error)
    ensures raw.notes.NotesArray? && HeaderOk(raw)
    ensures var k := ValidationResult(raw).error.index;
      && k < |raw.notes.items|
      && ValidationResult(raw) == CheckNote(raw.notes.items[k], k)
      && forall j :: 0 <= j < k ==> CheckNote(raw.notes.items[j], j).Pass?
  {
    SectionsPassExactly(raw);
    assert CheckSections(raw, 0).Pass? by {
      if CheckSections(raw, 0).Fail? {
        CheckSectionsErrors(raw, 0);
      }
    }
    var notes := raw.notes.items;
    FirstFailingNoteFrom(notes, 0);
    var k :| 0 <= k < |notes| && CheckNotes(notes, 0) == CheckNote(notes[k], k)
      && (forall j :: 0 <= j < k ==> CheckNote(notes[j], j).Pass?);
    assert CheckNote(notes[k], k).error.index == k;
  }

  lemma {:induction false} CheckSectionsErrors(raw: RawChart, i: nat)
    requires i <= |Required|
    ensures CheckSections(raw, i).Fail? ==> !IsNoteError(CheckSections(raw, i).error)
    decreases |Required| - i
  {
    if i < |Required| {
      CheckSectionsErrors(raw, i + 1);
      CheckFieldsErrors(raw, Required[i].0, Required[i].1, 0);
    }
  }

  lemma {:induction false} CheckFieldsErrors(raw: RawChart, section: string, fields: seq<string>, i: nat)
    requires i <= |fields|
    ensures CheckFields(raw, section, fields, i).Fail? ==> CheckFields(raw, section, fields, i).error.MissingField?
    decreases |fields| - i
  {
    if i < |fields| {
      CheckFieldsErrors(raw, section, fields, i + 1);
    }
  }

  /** A hold note whose duration is 0 (falsy) is rejected as missing its duration. */
  lemma HoldWithZeroDurationRejected(n: RawNote, i: nat)
    requires n.Note? && n.time != Undefined && n.zone != Undefined
    requires n.kind == Str("hold") && n.hold == Num(0.0)
    ensures CheckNote(n, i) == Fail(HoldMissingDuration(i))
  {
  }

  /** A multi note whose zone is a single number is rejected. */
  lemma MultiWithScalarZoneRejected(n: RawNote, i: nat)
    requires n.Note? && n.time != Undefined && n.zone.Num?
    requires n.kind == Str("multi")
    ensures CheckNote(n, i) == Fail(MultiZoneNotArray(i))
  {
  }

  /** A note with a time, a zone and no type, or a type the switch does not name, passes. */
  lemma UntypedOrUnknownTypePasses(n: RawNote, i: nat)
    requires n.Note? && n.time != Undefined && n.zone != Undefined
    requires !Truthy(n.kind) || (n.kind.Str? && n.kind.s != "hold" && n.kind.s != "chain" && n.kind.s != "multi")
    ensures CheckNote(n, i) == Pass
  {
  }
}
