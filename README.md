# slinky core in Dafny

slinky generates GNU ld linker scripts from a YAML description of a program's
segments. This project models its two central pieces and proves properties
about them:

- **The file-record validator**, `FileInfoSerial::unserialize`. It turns a loosely
  typed file record into a strict `FileInfo` or a structured error. It resolves
  the kind and path first. It then checks subfile, pad amount, section, linker
  offset name and section order, in that order, and returns the first error.
- **The emission engine**, `LinkerWriter`. It writes the script one line at a
  time while keeping three pieces of state:
  - the registry of address markers, with no duplicates, in first-write order;
  - the set of referenced input paths, with no duplicates, in first-reference order;
  - the table of address ("vram") classes, whose `emitted` flag is set on first use.

  On top of the script it exports a make-style dependency file and a C symbol header.

Modules:

| file | module | contents |
|---|---|---|
| `errors.dfy` | `Errors` | error kinds, `Option`, `Result`, the `Outcome` of emitter calls |
| `absent_nullable.dfy` | `AbsentNullableField` | the three-state field wrapper `Absent \| Null \| Value(v)` and its getters |
| `file_info.dfy` | `FileInfoValidation` | `Unserialize`; a table-driven reference validator; per-kind lemmas and a round trip |
| `seqs.dfy` | `Seqs` | insertion-ordered, duplicate-free sequences (the `IndexSet` behaviour) |
| `numbers.dfy` | `NumberText` | upper-case hexadecimal and decimal rendering, with round trips |
| `script_model.dfy` | `ScriptModel` | the document types, the script `Line`s, and the writer state `WriterState` with `Apply` (append lines and register their markers and paths) |
| `section_order.dfy` | `SectionOrder` | per-file section redirection, and the sort by position in the segment's section list (a functional spec plus an in-place array sort) |
| `emission.dfy` | `Emission` | the lines written for files, sections and segment blocks |
| `segments.dfy` | `Segments` | `add_segment` and the segment loop, class anchoring, `begin/end_sections`, single-segment mode, directives |
| `exports.dfy` | `Exports` | the dependency file and the symbol header, as the sequence of pieces written |
| `writer.dfy` | `Writer` | class `LinkerWriter` |

### How the writer is specified

Every state-changing method of `Writer.LinkerWriter` ensures
`State() == Apply(old(State()), Spec(...))`, where `Spec` is a function in
`Emission`, `Segments` or `Exports` that gives the exact lines the source writes.

- The properties the source promises are proved about those functions as lemmas.
- The class invariant `Valid()` is preserved by every public operation. It says:
  - the marker registry and the path set are exactly the duplicate-free, first-seen lists of the markers and input paths in the written lines;
  - every class name is a table key exactly once.

Collaborators whose code is not part of this model are parameters of the writer:
- the symbol naming style, a record of string functions;
- the runtime inclusion predicate `should_emit_entry`, a function on a file's or entry's condition sets;
- path joining, a function on two paths;
- `FileKind::from_path`, a function parameter of `Unserialize`.

## Model

| member | source | states |
|---|---|---|
| AbsentNullableField.Get | slinky/src/file_info.rs:59 | a required field: absent gives `MissingValue(name)`, null gives `NullValue(name)`, a value is returned |
| AbsentNullableField.GetNonNull | slinky/src/file_info.rs:105 | an optional field: absent gives the default, null gives `NullValue(name)`, a value is returned |
| AbsentNullableField.GetNonNullNoDefault | slinky/src/file_info.rs:56 | absent gives `None`, null gives `NullValue(name)`, a value gives `Some(value)` |
| FileInfoValidation.Unserialize | slinky/src/file_info.rs:54-171 | a null kind is `NullValue("kind")`; on success every field the kind forbids holds its default; with an explicit kind the result has that kind, and its path is non-empty exactly when the kind needs one; with an inferred kind the path is the given non-empty path and the kind is `from_path` of it |
| FileInfoValidation.FirstViolation | slinky/src/file_info.rs:95-160 | no violation is reported exactly when no field breaks its rule; a reported violation is some field's |
| FileInfoValidation.ExplicitKindFollowsTable | slinky/src/file_info.rs:56-171 | with an explicit kind, the validator equals the table-driven reference: the first field, in check order, that breaks the kind's rule gives the error; otherwise the allowed fields are kept and the rest defaulted |
| FileInfoValidation.ObjectFollowsTable | slinky/src/file_info.rs:58-68 | an explicit `Object` record is validated as the reference validator does |
| FileInfoValidation.ArchiveFollowsTable | slinky/src/file_info.rs:58-68 | an explicit `Archive` record is validated as the reference validator does |
| FileInfoValidation.PadFollowsTable | slinky/src/file_info.rs:69-79 | an explicit `Pad` record is validated as the reference validator does |
| FileInfoValidation.LinkerOffsetFollowsTable | slinky/src/file_info.rs:69-79 | an explicit `LinkerOffset` record is validated as the reference validator does |
| FileInfoValidation.FirstViolationUnrolled | slinky/src/file_info.rs:95-160 | the first violation in check order is path, then subfile, pad amount, section, offset name, section order |
| FileInfoValidation.FirstViolationCons | slinky/src/file_info.rs:95-160 | a field is checked before every field after it |
| FileInfoValidation.AcceptsExactlyLegalFields | slinky/src/file_info.rs:56-160 | an explicit-kind record is accepted if and only if every field is in a state the kind admits and a required path is non-empty |
| FileInfoValidation.ForbiddenFieldReportedInOrder | slinky/src/file_info.rs:95-160 | a forbidden field that is given, with no earlier field in error, yields exactly that field's `InvalidFieldCombo` |
| FileInfoValidation.FirstViolationAt | slinky/src/file_info.rs:95-160 | the first field in error, in check order, is the one reported |
| FileInfoValidation.InferredKind | slinky/src/file_info.rs:81-92 | without a kind, a missing, null or empty path is an error; otherwise an Object or Archive path is validated as if that kind had been given |
| FileInfoValidation.PathRules | slinky/src/file_info.rs:57-80 | Object/Archive need a non-empty path; Pad/LinkerOffset with a path are `InvalidFieldCombo`, and succeed with the empty path |
| FileInfoValidation.FieldDefaults | slinky/src/file_info.rs:95-160 | per kind on success: `subfile` is `"*"` unless an Archive gives one; `pad_amount` is given exactly for Pad, else 0; `section` is given for Pad/LinkerOffset, else `""`; `linker_offset_name` is given only for LinkerOffset, else `""`; `section_order` is empty for Pad/LinkerOffset and defaults to empty for Object/Archive |
| FileInfoValidation.RoundTrip | slinky/src/file_info.rs:162-170 | a well-formed `FileInfo`, written back with exactly its legal fields, validates to itself |
| NumberText.Hex8 | slinky/src/linker_writer.rs:404 | `{:08X}`: at least eight upper-case hex digits |
| NumberText.Hex | slinky/src/linker_writer.rs:783 | `{:X}`: at least one upper-case hex digit |
| NumberText.Hex8RoundTrip | slinky/src/linker_writer.rs:523 | the padded hex text reads back as the number |
| NumberText.HexRoundTrip | slinky/src/linker_writer.rs:923 | the hex text reads back as the number |
| NumberText.Decimal | slinky/src/linker_writer.rs:842 | `{}` of an integer: at least one decimal digit |
| Seqs.InsertProps | slinky/src/linker_writer.rs:904-906 | `IndexSet::insert` keeps the set duplicate-free and its old order, and adds exactly the new element |
| Seqs.AddAllProps | slinky/src/linker_writer.rs:904-918 | inserting a list keeps the set duplicate-free, keeps the old elements in front, and adds exactly the list's elements |
| ScriptModel.ApplyOne | slinky/src/linker_writer.rs:900-906 | one written line is appended; a marker line registers its name and a selector line its path, each only if new |
| ScriptModel.ApplyKeepsConsistent | slinky/src/linker_writer.rs:896-931 | after any writes, the registry and the path set are still duplicate-free, and every marker and every selector path in the script is in them |
| ScriptModel.NoSelectorsNoPaths | slinky/src/linker_writer.rs:920-931 | lines that are not selectors add no input path |
| SectionOrder.Position | slinky/src/linker_writer.rs:980 | a listed section's index, or -1 (`None`) for an unlisted one |
| SectionOrder.SortByPositionPermutes | slinky/src/linker_writer.rs:980 | the sort is a permutation |
| SectionOrder.SortByPositionSorted | slinky/src/linker_writer.rs:980 | the sort orders by position in the section list |
| SectionOrder.InsertSortedPermutes | slinky/src/linker_writer.rs:980 | one insertion step adds exactly the element |
| SectionOrder.InsertSortedKeepsSorted | slinky/src/linker_writer.rs:980 | one insertion step keeps the order |
| SectionOrder.InsertInPlace | slinky/src/linker_writer.rs:980 | the in-place insertion step does on the array what the functional step does, and leaves the rest of the array alone |
| SectionOrder.SortInPlace | slinky/src/linker_writer.rs:980 | the in-place sort leaves the array equal to the functional sort of its old contents |
| SectionOrder.KeysToMembers | slinky/src/linker_writer.rs:973-977 | the collected keys are exactly those mapped to the current section |
| SectionOrder.ResolveMembers | slinky/src/linker_writer.rs:965-977 | the sections emitted here are the current section unless it is a key, plus every key that maps to it |
| SectionOrder.RedirectedNotEmittedHere | slinky/src/linker_writer.rs:965-967 | a section that is a key elsewhere is not emitted under its own name |
| SectionOrder.ResolveCount | slinky/src/linker_writer.rs:965-977 | each section appears as often as it was collected, so nothing is added or lost |
| SectionOrder.ResolveFollowsSectionList | slinky/src/linker_writer.rs:979-980 | the sections emitted here are ordered by position in the segment's section list |
| SectionOrder.PositionAbsent | slinky/src/linker_writer.rs:980 | `position` is `None` exactly for a name missing from the section list |
| SectionOrder.UnlistedSectionsFirst | slinky/src/linker_writer.rs:965-980 | every contributed section missing from the section list comes before every listed one |
| SectionOrder.UnlistedSectionSortsFirst | slinky/src/linker_writer.rs:980 | example: with `{.rodata: .data}` and sections `[.text, .data]`, filling `.data` contributes `.rodata` then `.data` |
| Emission.SymEndSizeLines | slinky/src/linker_writer.rs:725-730 | the end and the size marker are registered, in that order |
| Emission.SectionForFileLeaf | slinky/src/linker_writer.rs:952-1007 | redirection and subgroups only choose sections: every line a non-group file contributes is its own selector, pad or offset line |
| Emission.UnitLeaf | slinky/src/linker_writer.rs:982-991 | the same for one resolved section and its subgroups |
| Emission.ResolvedLeaf | slinky/src/linker_writer.rs:982-992 | the same for the list of resolved sections |
| Emission.SubgroupLeaf | slinky/src/linker_writer.rs:986-990 | the same for a subgroup list |
| Emission.PadAndOffsetReferenceNoFile | slinky/src/linker_writer.rs:920-931 | Pad and LinkerOffset files add no input path |
| Emission.ExcludedFileContributesNothing | slinky/src/linker_writer.rs:863-870 | a file the runtime conditions exclude writes nothing, even through redirection or subgroups |
| Emission.ExcludedUnit | slinky/src/linker_writer.rs:863-870 | the same for one resolved section |
| Emission.ExcludedResolved | slinky/src/linker_writer.rs:863-870 | the same for the list of resolved sections |
| Emission.ExcludedSubgroup | slinky/src/linker_writer.rs:863-870 | the same for a subgroup list |
| Emission.UnredirectedSettles | slinky/src/linker_writer.rs:993-1001 | without redirection, subgroup inlining under a section ends within the section's depth in the segment's subgroup table |
| Emission.SectionStable | slinky/src/linker_writer.rs:952-1007 | once the bound reaches the depth at which a file's own subgroup inlining ends, any larger bound writes the same lines for that file |
| Emission.SectionLinesSettle | slinky/src/linker_writer.rs:1009-1026 | once the writer's depth bound reaches a depth at which every file of the segment, group members included, settles, any larger bound makes `emit_section` write the same lines |
| Emission.FileDeep | slinky/src/linker_writer.rs:855-950 | the same for one file, through its group members |
| Emission.FilesDeep | slinky/src/linker_writer.rs:937-945 | the same for a list of files |
| Emission.SectionDeep | slinky/src/linker_writer.rs:952-1007 | the same for `emit_section_for_file`, with the file's own chain cut at its settling depth |
| Emission.UnitDeep | slinky/src/linker_writer.rs:982-991 | the same for one resolved section and its subgroups |
| Emission.ResolvedDeep | slinky/src/linker_writer.rs:982-992 | the same for the list of resolved sections |
| Emission.SubgroupDeep | slinky/src/linker_writer.rs:986-990 | the same for a subgroup list |
| Emission.UnitStable | slinky/src/linker_writer.rs:982-991 | the same for one resolved section and its subgroups |
| Emission.ResolvedStable | slinky/src/linker_writer.rs:982-992 | the same for the list of resolved sections |
| Emission.SubgroupStable | slinky/src/linker_writer.rs:986-990 | the same for a subgroup list |
| Emission.UnredirectedFile | slinky/src/linker_writer.rs:993-1003 | an included object without `section_order` writes its selector first (with `KEEP` as its policy says). That is all it writes when subgroups do not apply |
| Segments.FollowLinesShape | slinky/src/linker_writer.rs:530-535 | one max-self line per followed class, in list order |
| Segments.ClassStartNames | slinky/src/linker_writer.rs:519-536 | the class start lines register only the start marker |
| Segments.ClassStartPrecedence | slinky/src/linker_writer.rs:518-540 | the class start is the fixed address, else the fixed symbol, else zero followed by one max-self line per followed class; the end marker starts at zero |
| Segments.ClassInitNames | slinky/src/linker_writer.rs:518-540 | initialisation registers the start then the end marker |
| Segments.SegmentBodyEnd | slinky/src/linker_writer.rs:588-596 | a segment ends with its class end raised to the segment's end (when classed) and a blank line |
| Segments.AddSegmentSpec | slinky/src/linker_writer.rs:483-599 | the class table keeps its keys |
| Segments.AddSegmentOutcome | slinky/src/linker_writer.rs:483-543 | an excluded segment writes nothing. An unknown class is `MissingVramClassForSegment` with nothing written. A class is initialised if and only if an included segment references it and it was not emitted. Only that class's `emitted` changes |
| Segments.SegmentRaisesClassEnd | slinky/src/linker_writer.rs:588-594 | every emitted classed segment raises its class end to at least its own end |
| Segments.AddSegmentsSpec | slinky/src/linker_writer.rs:89-91 | the segment loop keeps the table's keys |
| Segments.ErrorIsFinal | slinky/src/linker_writer.rs:89-91 | after the first error, later segments change nothing |
| Segments.AddSegmentsStopsAtFirstError | slinky/src/linker_writer.rs:89-91 | the loop fails if and only if some included segment names an unknown class, and it then reports the first such segment |
| Segments.ClassesInitialisedOnce | slinky/src/linker_writer.rs:507-543 | across a run each class is initialised at most once, only if not emitted before, and exactly the initialised classes become emitted |
| Segments.ClassInitialisedIffReferenced | slinky/src/linker_writer.rs:507-543 | in a run without error, a class is initialised exactly when it was not emitted and some included segment references it |
| Segments.LastFails | slinky/src/linker_writer.rs:507-516 | a failing run's error is the unknown class of its last processed segment |
| Segments.ClassSizesOfEmittedClasses | slinky/src/linker_writer.rs:416-431 | size markers are written for exactly the emitted classes, as end minus start |
| Segments.AssignmentsAdmitted | slinky/src/linker_writer.rs:641-662 | exactly the assignments the runtime conditions admit are written |
| Segments.RequiredAdmitted | slinky/src/linker_writer.rs:676-692 | exactly the admitted required symbols are written |
| Segments.AssertsAdmitted | slinky/src/linker_writer.rs:706-719 | exactly the admitted assertions are written |
| Exports.PrereqChunksShape | slinky/src/linker_writer.rs:236-243 | one continuation line per path, in order |
| Exports.RuleChunksShape | slinky/src/linker_writer.rs:252-259 | one empty rule per path, in order |
| Exports.DependencyShape | slinky/src/linker_writer.rs:230-261 | the target, one continuation per path, a blank line, then one rule per path in the same order |
| Exports.RulesDistinct | slinky/src/linker_writer.rs:252-259 | with duplicate-free paths no rule is written twice |
| Exports.ExternChunksShape | slinky/src/linker_writer.rs:319-336 | one `extern` declaration per marker, in registry order |
| Exports.HeaderShape | slinky/src/linker_writer.rs:309-343 | include guard, one declaration per marker with suffix `[]` exactly when markers are arrays, guard end |
| Writer.ClassTableShape | slinky/src/linker_writer.rs:36-39 | the class table has each declared name as a key exactly once, in first-declaration order, and no other key |
| Writer.LaterDefinitionWins | slinky/src/linker_writer.rs:36-39 | a name's entry is the last class declared with it |
| Writer.IndexClasses | slinky/src/linker_writer.rs:36-39 | the table-building loop yields that ordered, duplicate-free table |
| Writer.RulesCoverInputs | slinky/src/linker_writer.rs:252-259 | every input path a selector of the script names has its rule in the dependency file |
| Writer.ExternsCoverMarkers | slinky/src/linker_writer.rs:319-336 | every marker the script writes is declared in the header |
| Writer.LinkerWriter.New | slinky/src/linker_writer.rs:35-69 | empty script, indexed class table, both marker switches on, objects referenced directly |
| Writer.LinkerWriter.NewReferencePartialObjects | slinky/src/linker_writer.rs:71-77 | the same, referencing partially linked objects |
| Writer.LinkerWriter.SetEmitSectionsKindSymbols | slinky/src/linker_writer.rs:375-378 | sets that switch only |
| Writer.LinkerWriter.SetEmitSectionSymbols | slinky/src/linker_writer.rs:384-387 | sets that switch only |
| Writer.LinkerWriter.WriteSymEndSize | slinky/src/linker_writer.rs:725-730 | writes the end marker then the size `ABSOLUTE(end - start)` |
| Writer.LinkerWriter.WriteSectionsKindStart | slinky/src/linker_writer.rs:732-745 | writes the per-kind start marker when that switch is on |
| Writer.LinkerWriter.WriteSectionsKindEnd | slinky/src/linker_writer.rs:747-762 | writes the per-kind end and size markers when that switch is on |
| Writer.LinkerWriter.WriteGp | slinky/src/linker_writer.rs:773-788 | writes `_gp` in the admitted gp section only |
| Writer.LinkerWriter.WriteSectionSymbolStart | slinky/src/linker_writer.rs:764-796 | alignments, `_gp`, then the section start marker, when that switch is on |
| Writer.LinkerWriter.WriteSectionSymbolEnd | slinky/src/linker_writer.rs:798-815 | alignments, then the section end and size markers, when that switch is on |
| Writer.LinkerWriter.HeaderLine | slinky/src/linker_writer.rs:822-843 | the output-section header line |
| Writer.LinkerWriter.PlacementOf | slinky/src/linker_writer.rs:828-836 | placement precedence: fixed address, fixed symbol, followed segment's end, class start |
| Writer.LinkerWriter.WriteSegmentStart | slinky/src/linker_writer.rs:817-847 | kind start marker, header line, open block |
| Writer.LinkerWriter.WriteSelector | slinky/src/linker_writer.rs:900-906 | appends the selector and inserts its path into the path set if new |
| Writer.LinkerWriter.EmitFile | slinky/src/linker_writer.rs:855-950 | `emit_file`: the selector (with `KEEP` per the keep policy), pad or offset line, or the group's files under the extended base path |
| Writer.LinkerWriter.EmitFiles | slinky/src/linker_writer.rs:937-945 | each file of a group in order |
| Writer.LinkerWriter.EmitUnit | slinky/src/linker_writer.rs:982-991 | one resolved section, then its subgroups unless partial objects are referenced |
| Writer.LinkerWriter.EmitSubgroups | slinky/src/linker_writer.rs:986-990 | each subgroup section in order |
| Writer.LinkerWriter.EmitResolved | slinky/src/linker_writer.rs:982-992 | each resolved section in order |
| Writer.LinkerWriter.EmitSectionForFile | slinky/src/linker_writer.rs:952-1007 | `emit_section_for_file`, with or without redirection |
| Writer.LinkerWriter.EmitSection | slinky/src/linker_writer.rs:1009-1026 | every file of the segment, under the base path extended by the segment's directory unless partial objects are referenced |
| Writer.LinkerWriter.WriteSectionBlock | slinky/src/linker_writer.rs:1041-1049 | one section: start markers, contents, end markers, a blank line except after the last |
| Writer.LinkerWriter.WriteFill | slinky/src/linker_writer.rs:1036-1038 | the fill line if a fill value is set |
| Writer.LinkerWriter.WriteSectionBlocks | slinky/src/linker_writer.rs:1040-1050 | every section of the list in order |
| Writer.LinkerWriter.WriteSegment | slinky/src/linker_writer.rs:1028-1055 | `write_segment` |
| Writer.LinkerWriter.WriteSingleSectionStart | slinky/src/linker_writer.rs:1068-1081 | a section's own output section header and fill |
| Writer.LinkerWriter.WriteSingleSectionEnd | slinky/src/linker_writer.rs:1085-1090 | closes it, end markers, separator |
| Writer.LinkerWriter.WriteSingleSectionBlock | slinky/src/linker_writer.rs:1065-1091 | one section in single-segment mode |
| Writer.LinkerWriter.WriteSingleSectionBlocks | slinky/src/linker_writer.rs:1065-1091 | every section in single-segment mode |
| Writer.LinkerWriter.WriteSingleSegment | slinky/src/linker_writer.rs:1057-1096 | `write_single_segment` |
| Writer.LinkerWriter.WriteClassFollows | slinky/src/linker_writer.rs:530-535 | one max-self line per followed class |
| Writer.LinkerWriter.WriteClassStart | slinky/src/linker_writer.rs:519-536 | the class start by precedence |
| Writer.LinkerWriter.WriteClassInit | slinky/src/linker_writer.rs:518-540 | the class start, its zero end and a blank line |
| Writer.LinkerWriter.WriteSegmentOpen | slinky/src/linker_writer.rs:546-554 | start alignment and the rom and vram start markers |
| Writer.LinkerWriter.WriteSegmentSections | slinky/src/linker_writer.rs:556-564 | the loaded then the zero-initialised block, each followed by a blank line |
| Writer.LinkerWriter.WriteSegmentAdvance | slinky/src/linker_writer.rs:566-572 | advances `__romPos` and aligns the end |
| Writer.LinkerWriter.WriteSegmentMarkers | slinky/src/linker_writer.rs:574-586 | vram then rom end and size markers |
| Writer.LinkerWriter.WriteSegmentClose | slinky/src/linker_writer.rs:566-596 | advance, markers, class end raised, blank line |
| Writer.LinkerWriter.WriteSegmentBody | slinky/src/linker_writer.rs:546-596 | everything after the class initialisation |
| Writer.LinkerWriter.InitClassOnFirstUse | slinky/src/linker_writer.rs:518-543 | initialises and marks a class not yet emitted; leaves an emitted one alone |
| Writer.LinkerWriter.EmitSegment | slinky/src/linker_writer.rs:495-598 | an included segment of a known class is written as specified, without error |
| Writer.LinkerWriter.AddSegment | slinky/src/linker_writer.rs:483-599 | `add_segment`: lines, class table and result exactly as specified; keeps the writer valid |
| Writer.LinkerWriter.BeginSections | slinky/src/linker_writer.rs:396-410 | `begin_sections` |
| Writer.LinkerWriter.WriteClassSize | slinky/src/linker_writer.rs:417-430 | one iteration of the class-size loop; reports whether it wrote |
| Writer.LinkerWriter.WriteClassSizes | slinky/src/linker_writer.rs:416-431 | the size markers, and whether any was written |
| Writer.LinkerWriter.WriteSingleEntries | slinky/src/linker_writer.rs:438-440 | one placeholder section per listed section |
| Writer.LinkerWriter.WriteDenies | slinky/src/linker_writer.rs:466-468 | one discard selector per denied section |
| Writer.LinkerWriter.WriteEntryGroup | slinky/src/linker_writer.rs:433-443 | a non-empty group after a blank line if needed |
| Writer.LinkerWriter.WriteAllowGroups | slinky/src/linker_writer.rs:433-455 | the allowlist then the extra allowlist |
| Writer.LinkerWriter.WriteDiscard | slinky/src/linker_writer.rs:457-475 | the `/DISCARD/` block when anything is discarded |
| Writer.LinkerWriter.EndSections | slinky/src/linker_writer.rs:412-481 | `end_sections` |
| Writer.LinkerWriter.WriteSingleOpen | slinky/src/linker_writer.rs:606-612 | opens the block, at the fixed address if one is set |
| Writer.LinkerWriter.WriteSingleSections | slinky/src/linker_writer.rs:614-622 | the loaded then the zero-initialised sections |
| Writer.LinkerWriter.AddSingleSegment | slinky/src/linker_writer.rs:601-627 | `add_single_segment`: sets the single-segment flag, writes the whole block and keeps the writer valid |
| Writer.LinkerWriter.AddSegmentStep | slinky/src/linker_writer.rs:89-91 | one iteration of the segment loop |
| Writer.LinkerWriter.AddSegments | slinky/src/linker_writer.rs:89-91 | each segment in order, stopping at the first error |
| Writer.LinkerWriter.AddAllSegments | slinky/src/linker_writer.rs:81-96 | `add_all_segments`: single-segment mode, or the block with each segment and, unless a segment failed, the closing lines |
| Writer.LinkerWriter.BeginDirectiveGroup | slinky/src/linker_writer.rs:629-635 | a blank line unless the script is empty |
| Writer.LinkerWriter.AddEntry | slinky/src/linker_writer.rs:98-106 | `ENTRY(...)`, after a blank line unless the script is empty |
| Writer.LinkerWriter.AddSymbolAssignment | slinky/src/linker_writer.rs:641-662 | the assignment if admitted |
| Writer.LinkerWriter.AddRequiredSymbol | slinky/src/linker_writer.rs:676-692 | the required symbol if admitted |
| Writer.LinkerWriter.AddAssert | slinky/src/linker_writer.rs:706-719 | the assertion if admitted |
| Writer.LinkerWriter.WriteAssignmentsStep | slinky/src/linker_writer.rs:118 | one iteration of the assignment loop |
| Writer.LinkerWriter.WriteAssignments | slinky/src/linker_writer.rs:117-119 | every admitted assignment in order |
| Writer.LinkerWriter.WriteRequiredStep | slinky/src/linker_writer.rs:135 | one iteration of the required-symbol loop |
| Writer.LinkerWriter.WriteRequired | slinky/src/linker_writer.rs:134-136 | every admitted required symbol in order |
| Writer.LinkerWriter.WriteAssertsStep | slinky/src/linker_writer.rs:149 | one iteration of the assertion loop |
| Writer.LinkerWriter.WriteAsserts | slinky/src/linker_writer.rs:148-150 | every admitted assertion in order |
| Writer.LinkerWriter.AddAllSymbolAssignments | slinky/src/linker_writer.rs:108-123 | nothing for an empty list, else a separator and the admitted assignments |
| Writer.LinkerWriter.AddAllRequiredSymbols | slinky/src/linker_writer.rs:125-140 | nothing for an empty list, else a separator and the admitted required symbols |
| Writer.LinkerWriter.AddAllAsserts | slinky/src/linker_writer.rs:142-153 | nothing for an empty list, else a separator and the admitted assertions |
| Writer.LinkerWriter.ExportDependenciesFile | slinky/src/linker_writer.rs:210-263 | the dependency file's pieces; every referenced input gets its rule |
| Writer.LinkerWriter.ExportSymbolHeader | slinky/src/linker_writer.rs:293-346 | the header's pieces; every written marker is declared |

## Left out

- File output: the `*_to_file` and `*_to_string` variants, `save_other_files` and `export_linker_script`. The `FailedWrite` and `FailedStringConversion` errors are I/O failures, and the exporters are modelled as returning the pieces they write.
- Version banners, in the constructor and both exporters. They are build metadata. A writer with a banner starts non-empty, so its first directive group would start with a blank line; the model starts from the empty script.
- `ScriptBuffer` is not part of this model. The script is a sequence of structured `Line`s, not indented text, and `finish` is not modelled. "The buffer is empty" is modelled as "no line was written".
- Which buffer writes register a marker: `script_buffer.rs` is not part of this model. The model assumes that only `write_linker_symbol` (the `Symbol` line) adds its name to the marker registry. `MaxSelf` lines, assignments and required symbols register nothing (`ScriptModel.SymbolNames`). The contents of the symbol header depend on this assumption.
- `LinkerSymbolsStyle`, `RuntimeSettings::should_emit_entry`, `FileKind::from_path` and path joining are uninterpreted functions. The model does not know their results.
- Path escaping (`path_escaped`, `dir_escaped`, `base_path_escaped`) and its errors. Paths are taken as already escaped, so `emit_file`, `emit_section` and their callers never fail in the model.
- `HashMap` iteration order of `section_order`: a file's map is an association list, and its order is an input of the model.
- `sort_unstable_by_key`: modelled as a stable sort by position. It agrees with the source on the order of the keys but may order equal keys differently. The order properties are stated as "sorted by position" and "a permutation".
- Writer.LinkerWriter.EmitSectionForFile: subgroup recursion is cut off by a depth bound. The bound is the `fuel` argument, and the writer is created with one. In the source, `sections_subgroups` may be cyclic, and the recursion then never returns; the model does not capture such a configuration.
  - Subgroup sections nested deeper than the bound are silently not emitted, even in an acyclic configuration.
  - `Emission.SectionStable` covers one file's own chain. Once its bound reaches the depth at which the file's inlining ends, a larger bound changes nothing. That depth is `SectionSettles`; for a file without redirection it is the file's depth in the subgroup table, `SubgroupDepthWithin`.
  - Group members start again at the writer's `subgroupDepth`. `Emission.SectionLinesSettle` covers them: once the writer's bound reaches a depth at which every file of the segment and every group member settles (`AllDeepSettle`), a larger bound makes `emit_section` write the same lines. From that bound on, the model writes what the source writes.
- Writer.LinkerWriter.EmitUnit, Writer.LinkerWriter.EmitSubgroups and Writer.LinkerWriter.EmitResolved share that bound, and the same cut-off.
- Writer.LinkerWriter.AddSingleSegment: the source's `assert!` panics (a second single segment, a segment count other than one, `add_segment` in single-segment mode) are preconditions, not recoverable errors.
- The getters `get_linker_symbols`, `get_emit_sections_kind_symbols` and `get_emit_section_symbols` are plain field reads. `end_symbol_assignments`, `end_required_symbols` and `end_asserts` do nothing.
- `FileInfo` has two shapes. The validator's result has the four kinds and fields shown in `file_info.rs`. The emitter's file record adds `Group`, `files`, `dir`, `keep_sections` and the condition sets that `linker_writer.rs` reads.
- `pad_amount` has two ranges. The validator keeps the source's `u32` range: `padAmount` is a `u32` newtype in both records of `file_info.dfy`. The emitter's file record (`ScriptModel.FileInfo.padAmount`) is a `nat`. `Hex` renders it with no wrap-around.
- slinky/src/lib.rs, the CLI and `partial_linker_writer` are not part of this model.
