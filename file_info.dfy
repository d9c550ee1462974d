/**
 * The file-record validator: it turns a loosely typed input record, whose
 * fields may each be absent, null or present, into a strict `FileInfo` whose
 * population is decided by its kind, or reports the first rule it breaks.
 *
 * `FileKind::from_path` (kind inference from a path's suffix) is not part of
 * this model: it is the parameter `fromPath`.
 */
module FileInfoValidation {
  import opened Errors
  import opened AbsentNullableField

  newtype u32 = x: int | 0 <= x < 0x1_0000_0000

  /** The four kinds the validator knows. */
  datatype FileKind = Object | Archive | Pad | LinkerOffset

  /** The strict result; `path` is the path's text (the empty path is ""). */
  datatype FileInfo = FileInfo(
    path: string,
    kind: FileKind,
    subfile: string,          // used for archives; "*" selects every member
    padAmount: u32,
    section: string,
    linkerOffsetName: string,
    sectionOrder: map<string, string>)

  /** The record as read from the document, before validation. */
  datatype FileInfoSerial = FileInfoSerial(
    path: AbsentNullable<string>,
    kind: AbsentNullable<FileKind>,
    subfile: AbsentNullable<string>,
    padAmount: AbsentNullable<u32>,
    section: AbsentNullable<string>,
    linkerOffsetName: AbsentNullable<string>,
    sectionOrder: AbsentNullable<map<string, string>>)

  // The errors for fields a kind does not allow, worded as the validator words them.
  const PathOnPadOrOffset := InvalidFieldCombo("kind: pad or kind: linker_offset", "path")
  const SubfileOnNonArchive := InvalidFieldCombo("subfile", "non `kind: archive`")
  const PadAmountOnNonPad := InvalidFieldCombo("pad_amount", "non `kind: pad`")
  const SectionOnNonPadOrOffset := InvalidFieldCombo("section", "non `kind: pad or kind: linker_offset`")
  const OffsetNameOnNonOffset := InvalidFieldCombo("linker_offset_name", "non `kind: linker_offset`")
  const SectionOrderOnPadOrOffset := InvalidFieldCombo("section_order", "non `kind: object` or `kind: archive`")

  /** `FileInfoSerial::unserialize`: resolve kind and path together, then check
      subfile, pad_amount, section, linker_offset_name and section_order in
      that order, returning the first error met. */
  function Unserialize(raw: FileInfoSerial, fromPath: string -> FileKind): (r: Result<FileInfo>)
    ensures raw.kind.Null? ==> r == Err(NullValue("kind"))
    ensures r.Ok? ==> DefaultsHeld(r.value)
    ensures r.Ok? && raw.kind.Value? ==> r.value.kind == raw.kind.value && WellFormed(r.value)
    ensures r.Ok? && raw.kind.Absent? ==>
      raw.path == Value(r.value.path) && r.value.path != "" && r.value.kind == fromPath(r.value.path)
  {
    var explicitKind :- raw.kind.GetNonNullNoDefault("kind");
    var pathAndKind :- match explicitKind {
      case Some(k) =>
        if k == Object || k == Archive then
          var p :- raw.path.Get("path");
          if p == "" then Err(EmptyValue("path")) else Ok((p, k))
        else if raw.path.HasValue() then Err(PathOnPadOrOffset)
        else Ok(("", k))
      case None =>
        var p :- raw.path.Get("path");
        if p == "" then Err(EmptyValue("path")) else Ok((p, fromPath(p)))
    };
    var path := pathAndKind.0;
    var kind := pathAndKind.1;

    var subfile :-
      if kind != Archive then
        if raw.subfile.HasValue() then Err(SubfileOnNonArchive) else Ok("*")
      else raw.subfile.GetNonNull("subfile", "*");

    var padAmount :-
      if kind != Pad then
        if raw.padAmount.HasValue() then Err(PadAmountOnNonPad) else Ok(0)
      else raw.padAmount.Get("pad_amount");

    var section :-
      if kind == Object || kind == Archive then
        if raw.section.HasValue() then Err(SectionOnNonPadOrOffset) else Ok("")
      else raw.section.Get("section");

    var linkerOffsetName :-
      if kind != LinkerOffset then
        if raw.linkerOffsetName.HasValue() then Err(OffsetNameOnNonOffset) else Ok("")
      else raw.linkerOffsetName.Get("linker_offset_name");

    var sectionOrder :-
      if kind == Pad || kind == LinkerOffset then
        if raw.sectionOrder.HasValue() then Err(SectionOrderOnPadOrOffset) else Ok(map[])
      else raw.sectionOrder.GetNonNull("section_order", map[]);

    Ok(FileInfo(path, kind, subfile, padAmount, section, linkerOffsetName, sectionOrder))
  }

  // ---------------------------------------------------------------------------
  // An independent, table-driven statement of the same rules.

  datatype Field = PathField | SubfileField | PadAmountField | SectionField | LinkerOffsetNameField | SectionOrderField
  datatype Rule = Required | Optional | Forbidden
  datatype Presence = Missing | ExplicitNull | Given

  /** The order in which the fields are checked. */
  const FieldOrder: seq<Field> :=
    [PathField, SubfileField, PadAmountField, SectionField, LinkerOffsetNameField, SectionOrderField]

  function FieldIndex(f: Field): (i: nat)
    ensures i < |FieldOrder| && FieldOrder[i] == f
  {
    match f
    case PathField => 0
    case SubfileField => 1
    case PadAmountField => 2
    case SectionField => 3
    case LinkerOffsetNameField => 4
    case SectionOrderField => 5
  }

  function FieldName(f: Field): string {
    match f
    case PathField => "path"
    case SubfileField => "subfile"
    case PadAmountField => "pad_amount"
    case SectionField => "section"
    case LinkerOffsetNameField => "linker_offset_name"
    case SectionOrderField => "section_order"
  }

  /** Which fields each kind requires, allows or forbids. */
  function RuleFor(k: FileKind, f: Field): Rule {
    match f
    case PathField => if k == Object || k == Archive then Required else Forbidden
    case SubfileField => if k == Archive then Optional else Forbidden
    case PadAmountField => if k == Pad then Required else Forbidden
    case SectionField => if k == Pad || k == LinkerOffset then Required else Forbidden
    case LinkerOffsetNameField => if k == LinkerOffset then Required else Forbidden
    case SectionOrderField => if k == Object || k == Archive then Optional else Forbidden
  }

  /** The error reported when field `f` is given to a kind that forbids it. */
  function ComboError(f: Field): SlinkyError {
    match f
    case PathField => PathOnPadOrOffset
    case SubfileField => SubfileOnNonArchive
    case PadAmountField => PadAmountOnNonPad
    case SectionField => SectionOnNonPadOrOffset
    case LinkerOffsetNameField => OffsetNameOnNonOffset
    case SectionOrderField => SectionOrderOnPadOrOffset
  }

  function PresenceOf<T>(x: AbsentNullable<T>): Presence {
    match x
    case Absent => Missing
    case Null => ExplicitNull
    case Value(_) => Given
  }

  function FieldPresence(raw: FileInfoSerial, f: Field): Presence {
    match f
    case PathField => PresenceOf(raw.path)
    case SubfileField => PresenceOf(raw.subfile)
    case PadAmountField => PresenceOf(raw.padAmount)
    case SectionField => PresenceOf(raw.section)
    case LinkerOffsetNameField => PresenceOf(raw.linkerOffsetName)
    case SectionOrderField => PresenceOf(raw.sectionOrder)
  }

  /** A field state a rule admits: required fields must be given, optional
      ones may not be null, forbidden ones may be absent or null. */
  predicate Admits(rule: Rule, p: Presence) {
    match rule
    case Required => p == Given
    case Optional => p != ExplicitNull
    case Forbidden => p != Given
  }

  /** What is wrong with field `f` of `raw` for kind `k`, if anything. */
  function Violation(k: FileKind, raw: FileInfoSerial, f: Field): Option<SlinkyError> {
    var p := FieldPresence(raw, f);
    match RuleFor(k, f)
    case Required =>
      if p == Missing then Some(MissingValue(FieldName(f)))
      else if p == ExplicitNull then Some(NullValue(FieldName(f)))
      else if f == PathField && raw.path.value == "" then Some(EmptyValue("path"))
      else None
    case Optional => if p == ExplicitNull then Some(NullValue(FieldName(f))) else None
    case Forbidden => if p == Given then Some(ComboError(f)) else None
  }

  /** The first violation among `fields`, in order. */
  function FirstViolation(k: FileKind, raw: FileInfoSerial, fields: seq<Field>): (r: Option<SlinkyError>)
    ensures r.None? <==> forall i :: 0 <= i < |fields| ==> Violation(k, raw, fields[i]).None?
    ensures r.Some? ==> exists i :: 0 <= i < |fields| && r == Violation(k, raw, fields[i])
  {
    if fields == [] then None
    else if Violation(k, raw, fields[0]).Some? then Violation(k, raw, fields[0])
    else
      var rest := FirstViolation(k, raw, fields[1..]);
      assert forall i :: 1 <= i < |fields| ==> fields[i] == fields[1..][i - 1];
      rest
  }

  /** The value a field takes: the given value where the kind allows the
      field, otherwise the field's default. */
  function Take<T>(rule: Rule, x: AbsentNullable<T>, default: T): T {
    if rule != Forbidden && x.Value? then x.value else default
  }

  function Normalised(k: FileKind, raw: FileInfoSerial): FileInfo {
    FileInfo(
      Take(RuleFor(k, PathField), raw.path, ""),
      k,
      Take(RuleFor(k, SubfileField), raw.subfile, "*"),
      Take(RuleFor(k, PadAmountField), raw.padAmount, 0),
      Take(RuleFor(k, SectionField), raw.section, ""),
      Take(RuleFor(k, LinkerOffsetNameField), raw.linkerOffsetName, ""),
      Take(RuleFor(k, SectionOrderField), raw.sectionOrder, map[]))
  }

  /** The reference validator for a record of kind `k`. */
  function CheckAgainstTable(k: FileKind, raw: FileInfoSerial): Result<FileInfo> {
    match FirstViolation(k, raw, FieldOrder)
    case Some(e) => Err(e)
    case None => Ok(Normalised(k, raw))
  }

  /** Every field other than the path that the kind forbids holds its default. */
  predicate DefaultsHeld(info: FileInfo) {
    && (RuleFor(info.kind, SubfileField) == Forbidden ==> info.subfile == "*")
    && (RuleFor(info.kind, PadAmountField) == Forbidden ==> info.padAmount == 0)
    && (RuleFor(info.kind, SectionField) == Forbidden ==> info.section == "")
    && (RuleFor(info.kind, LinkerOffsetNameField) == Forbidden ==> info.linkerOffsetName == "")
    && (RuleFor(info.kind, SectionOrderField) == Forbidden ==> info.sectionOrder == map[])
  }

  /** The defaults hold, and the path is non-empty exactly when the kind
      needs one. */
  predicate WellFormed(info: FileInfo) {
    DefaultsHeld(info) && (RuleFor(info.kind, PathField) == Required <==> info.path != "")
  }

  /** The record that describes `info` with exactly its legal fields. */
  function Serialize(info: FileInfo): FileInfoSerial {
    FileInfoSerial(
      Give(RuleFor(info.kind, PathField), info.path),
      Value(info.kind),
      Give(RuleFor(info.kind, SubfileField), info.subfile),
      Give(RuleFor(info.kind, PadAmountField), info.padAmount),
      Give(RuleFor(info.kind, SectionField), info.section),
      Give(RuleFor(info.kind, LinkerOffsetNameField), info.linkerOffsetName),
      Give(RuleFor(info.kind, SectionOrderField), info.sectionOrder))
  }

  function Give<T>(rule: Rule, v: T): AbsentNullable<T> {
    if rule == Forbidden then Absent else Value(v)
  }

  // ---------------------------------------------------------------------------
  // Properties.

  /** With an explicit kind, the validator is the table: it reports the first
      field, in check order, that breaks the kind's rules, and otherwise keeps
      exactly the allowed fields and defaults the rest. */
  lemma ExplicitKindFollowsTable(raw: FileInfoSerial, fromPath: string -> FileKind)
    requires raw.kind.Value?
    ensures Unserialize(raw, fromPath) == CheckAgainstTable(raw.kind.value, raw)
  {
    FirstViolationUnrolled(raw.kind.value, raw);
    match raw.kind.value {
      case Object => ObjectFollowsTable(raw, fromPath);
      case Archive => ArchiveFollowsTable(raw, fromPath);
      case Pad => PadFollowsTable(raw, fromPath);
      case LinkerOffset => LinkerOffsetFollowsTable(raw, fromPath);
    }
  }

  lemma ObjectFollowsTable(raw: FileInfoSerial, fromPath: string -> FileKind)
    requires raw.kind == Value(Object)
    ensures Unserialize(raw, fromPath) == match UnrolledViolation(Object, raw)
      case Some(e) => Err(e) case None => Ok(Normalised(Object, raw))
  {
  }

  lemma ArchiveFollowsTable(raw: FileInfoSerial, fromPath: string -> FileKind)
    requires raw.kind == Value(Archive)
    ensures Unserialize(raw, fromPath) == match UnrolledViolation(Archive, raw)
      case Some(e) => Err(e) case None => Ok(Normalised(Archive, raw))
  {
  }

  lemma PadFollowsTable(raw: FileInfoSerial, fromPath: string -> FileKind)
    requires raw.kind == Value(Pad)
    ensures Unserialize(raw, fromPath) == match UnrolledViolation(Pad, raw)
      case Some(e) => Err(e) case None => Ok(Normalised(Pad, raw))
  {
  }

  lemma LinkerOffsetFollowsTable(raw: FileInfoSerial, fromPath: string -> FileKind)
    requires raw.kind == Value(LinkerOffset)
    ensures Unserialize(raw, fromPath) == match UnrolledViolation(LinkerOffset, raw)
      case Some(e) => Err(e) case None => Ok(Normalised(LinkerOffset, raw))
  {
  }

  /** `FirstViolation` over `FieldOrder`, written out field by field. */
  function UnrolledViolation(k: FileKind, raw: FileInfoSerial): Option<SlinkyError> {
    Or(Violation(k, raw, PathField),
    Or(Violation(k, raw, SubfileField),
    Or(Violation(k, raw, PadAmountField),
    Or(Violation(k, raw, SectionField),
    Or(Violation(k, raw, LinkerOffsetNameField),
       Violation(k, raw, SectionOrderField))))))
  }

  lemma FirstViolationUnrolled(k: FileKind, raw: FileInfoSerial)
    ensures FirstViolation(k, raw, FieldOrder) == UnrolledViolation(k, raw)
  {
    var f5 := [SectionOrderField];
    var f4 := [LinkerOffsetNameField] + f5;
    var f3 := [SectionField] + f4;
    var f2 := [PadAmountField] + f3;
    var f1 := [SubfileField] + f2;
    assert FieldOrder == [PathField] + f1;
    FirstViolationCons(k, raw, SectionOrderField, []);
    assert f5 == [SectionOrderField] + [];
    FirstViolationCons(k, raw, LinkerOffsetNameField, f5);
    FirstViolationCons(k, raw, SectionField, f4);
    FirstViolationCons(k, raw, PadAmountField, f3);
    FirstViolationCons(k, raw, SubfileField, f2);
    FirstViolationCons(k, raw, PathField, f1);
  }

  /** The checks of `f` come before the checks of the fields after it. */
  lemma FirstViolationCons(k: FileKind, raw: FileInfoSerial, f: Field, rest: seq<Field>)
    ensures FirstViolation(k, raw, [f] + rest) == Or(Violation(k, raw, f), FirstViolation(k, raw, rest))
  {
    assert ([f] + rest)[1..] == rest;
  }

  function Or(a: Option<SlinkyError>, b: Option<SlinkyError>): Option<SlinkyError> {
    if a.Some? then a else b
  }

  /** A record of an explicit kind is accepted exactly when each field's state
      is one the kind admits (and a required path is not empty). */
  lemma AcceptsExactlyLegalFields(raw: FileInfoSerial, fromPath: string -> FileKind)
    requires raw.kind.Value?
    ensures Unserialize(raw, fromPath).Ok? <==>
      (forall f: Field :: Admits(RuleFor(raw.kind.value, f), FieldPresence(raw, f)))
      && (RuleFor(raw.kind.value, PathField) == Required ==> raw.path.value != "")
  {
    var k := raw.kind.value;
    ExplicitKindFollowsTable(raw, fromPath);
    forall f: Field ensures Violation(k, raw, f).None? <==>
      Admits(RuleFor(k, f), FieldPresence(raw, f)) && (f == PathField && RuleFor(k, f) == Required ==> raw.path.value != "")
    {
    }
    if Unserialize(raw, fromPath).Ok? {
      forall f: Field ensures Admits(RuleFor(k, f), FieldPresence(raw, f)) {
        var i := FieldIndex(f);
        assert Violation(k, raw, FieldOrder[i]).None?;
      }
      assert Violation(k, raw, FieldOrder[0]).None?;
    }
  }

  /** A field the kind forbids, given a value while every field checked
      before it is fine, is reported as exactly that field's combination
      error, whatever the later fields hold. */
  lemma ForbiddenFieldReportedInOrder(raw: FileInfoSerial, fromPath: string -> FileKind, i: nat)
    requires raw.kind.Value? && i < |FieldOrder|
    requires RuleFor(raw.kind.value, FieldOrder[i]) == Forbidden
    requires FieldPresence(raw, FieldOrder[i]) == Given
    requires forall j :: 0 <= j < i ==> Violation(raw.kind.value, raw, FieldOrder[j]).None?
    ensures Unserialize(raw, fromPath) == Err(ComboError(FieldOrder[i]))
  {
    ExplicitKindFollowsTable(raw, fromPath);
    FirstViolationAt(raw.kind.value, raw, FieldOrder, i);
  }

  lemma {:induction false} FirstViolationAt(k: FileKind, raw: FileInfoSerial, fields: seq<Field>, i: nat)
    requires i < |fields| && Violation(k, raw, fields[i]).Some?
    requires forall j :: 0 <= j < i ==> Violation(k, raw, fields[j]).None?
    ensures FirstViolation(k, raw, fields) == Violation(k, raw, fields[i])
  {
    if i > 0 {
      FirstViolationAt(k, raw, fields[1..], i - 1);
    }
  }

  /** Without an explicit kind the path is required and must not be empty,
      and the kind is what `fromPath` infers from it. When it infers an object
      or an archive, the record is validated as if that kind had been given. */
  lemma InferredKind(raw: FileInfoSerial, fromPath: string -> FileKind)
    requires raw.kind.Absent?
    ensures raw.path.Absent? ==> Unserialize(raw, fromPath) == Err(MissingValue("path"))
    ensures raw.path.Null? ==> Unserialize(raw, fromPath) == Err(NullValue("path"))
    ensures raw.path == Value("") ==> Unserialize(raw, fromPath) == Err(EmptyValue("path"))
    ensures raw.path.Value? && raw.path.value != "" && fromPath(raw.path.value) in {Object, Archive} ==>
      Unserialize(raw, fromPath) == Unserialize(raw.(kind := Value(fromPath(raw.path.value))), fromPath)
  {
  }

  /** An explicit object or archive needs a non-empty path; a pad or linker
      offset may not have one and always ends with the empty path. */
  lemma PathRules(raw: FileInfoSerial, fromPath: string -> FileKind)
    requires raw.kind.Value?
    ensures raw.kind.value in {Object, Archive} && raw.path == Value("") ==>
      Unserialize(raw, fromPath) == Err(EmptyValue("path"))
    ensures raw.kind.value in {Object, Archive} && !raw.path.Value? ==> Unserialize(raw, fromPath).Err?
    ensures raw.kind.value in {Pad, LinkerOffset} && raw.path.Value? ==>
      Unserialize(raw, fromPath) == Err(PathOnPadOrOffset)
    ensures raw.kind.value in {Pad, LinkerOffset} && Unserialize(raw, fromPath).Ok? ==>
      Unserialize(raw, fromPath).value.path == ""
  {
  }

  /** Per-field outcomes once kind and path are resolved: a subfile only on
      archives (default "*"), a pad amount only and always on pads (default 0),
      a section only and always on pads and linker offsets (default ""), a
      linker offset name only and always on linker offsets (default ""), and a
      section order only on objects and archives (default empty). */
  lemma FieldDefaults(raw: FileInfoSerial, fromPath: string -> FileKind)
    requires Unserialize(raw, fromPath).Ok?
    ensures var info := Unserialize(raw, fromPath).value;
      && (info.kind != Archive ==> !raw.subfile.Value? && info.subfile == "*")
      && (info.kind == Archive ==> info.subfile == (if raw.subfile.Value? then raw.subfile.value else "*"))
      && (info.kind == Pad <==> raw.padAmount.Value? && info.padAmount == raw.padAmount.value)
      && (info.kind != Pad ==> info.padAmount == 0)
      && (info.kind in {Pad, LinkerOffset} ==> raw.section == Value(info.section))
      && (info.kind in {Object, Archive} ==> !raw.section.Value? && info.section == "")
      && (info.kind == LinkerOffset ==> raw.linkerOffsetName == Value(info.linkerOffsetName))
      && (info.kind != LinkerOffset ==> !raw.linkerOffsetName.Value? && info.linkerOffsetName == "")
      && (info.kind in {Pad, LinkerOffset} ==> !raw.sectionOrder.Value? && info.sectionOrder == map[])
      && (info.kind in {Object, Archive} ==>
            info.sectionOrder == (if raw.sectionOrder.Value? then raw.sectionOrder.value else map[]))
  {
  }

  /** Validation undoes `Serialize`: a well-formed `FileInfo`, written with
      exactly its legal fields, is read back unchanged. */
  lemma RoundTrip(info: FileInfo, fromPath: string -> FileKind)
    requires WellFormed(info)
    ensures Unserialize(Serialize(info), fromPath) == Ok(info)
  {
  }
}
