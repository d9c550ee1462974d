/**
 * What the writer appends while it fills one segment: the lines of each
 * file for each section (with redirection, subgroups and group flattening),
 * the per-section and per-kind address markers, and the output-section
 * headers. Each function here is the specification a `LinkerWriter` method
 * is proved against.
 */
module Emission {
  import opened Errors
  import opened NumberText
  import opened ScriptModel
  import opened SectionOrder

  /** A measure that shrinks from a group to each of its members. */
  function Size(f: FileInfo): nat {
    1 + SizeAll(f.files)
  }

  function SizeAll(fs: seq<FileInfo>): nat {
    if fs == [] then 0 else SizeAll(fs[..|fs| - 1]) + Size(fs[|fs| - 1]) + 1
  }

  lemma {:induction false} SizeMember(fs: seq<FileInfo>, i: nat)
    requires i < |fs|
    ensures Size(fs[i]) < SizeAll(fs)
    decreases |fs|
  {
    if i < |fs| - 1 {
      SizeMember(fs[..|fs| - 1], i);
    }
  }

  // ---------------------------------------------------------------------
  // Address markers

  /** `write_sym_end_size`: the end marker takes `value`, then the size
      marker is the distance from the start marker to the end marker. */
  function SymEndSizeLines(start: string, end: string, size: string, value: string): (r: seq<Line>)
    ensures SymbolNames(r) == [end, size]
  {
    var a := [Symbol(end, value)];
    var b := [Symbol(size, "ABSOLUTE(" + end + " - " + start + ")")];
    SymbolNamesConcat(a, b);
    assert a[..0] == [] && b[..0] == [];
    a + b
  }

  /** The per-kind marker base name, `<segment>_alloc` or `<segment>_noload`. */
  function KindName(seg: Segment, noload: bool): string {
    seg.name + "_" + (if noload then "noload" else "alloc")
  }

  /** `write_sections_kind_start`. */
  function KindStartLines(env: Env, seg: Segment, noload: bool): seq<Line> {
    if env.sectionsKindSymbols then [Symbol(env.style.segmentVramStart(KindName(seg, noload)), "."), Empty] else []
  }

  /** `write_sections_kind_end`. */
  function KindEndLines(env: Env, seg: Segment, noload: bool): seq<Line> {
    if env.sectionsKindSymbols then
      var n := KindName(seg, noload);
      [Empty] + SymEndSizeLines(env.style.segmentVramStart(n), env.style.segmentVramEnd(n), env.style.segmentVramSize(n), ".")
    else []
  }

  function AlignLines(align: Option<nat>): seq<Line> {
    if align.Some? then [Align(".", align.value)] else []
  }

  function SectionAlignLines(aligns: map<string, nat>, section: string): seq<Line> {
    if section in aligns then [Align(".", aligns[section])] else []
  }

  /** The global-pointer placement, when it is enabled and targets `section`. */
  function GpLines(env: Env, seg: Segment, section: string): seq<Line> {
    if seg.gpInfo.Some? && env.shouldEmit(seg.gpInfo.value.conditions) && seg.gpInfo.value.section == section then
      var gp := seg.gpInfo.value;
      [Assignment("_gp", ". + 0x" + Hex(gp.offset), gp.provide, gp.hidden)]
    else []
  }

  /** `write_section_symbol_start`. */
  function SectionStartLines(env: Env, seg: Segment, section: string): seq<Line> {
    if env.sectionSymbols then
      AlignLines(seg.sectionStartAlign) + SectionAlignLines(seg.sectionsStartAlignment, section)
      + GpLines(env, seg, section) + [Symbol(env.style.segmentSectionStart(seg.name, section), ".")]
    else []
  }

  /** `write_section_symbol_end`. */
  function SectionEndLines(env: Env, seg: Segment, section: string): seq<Line> {
    if env.sectionSymbols then
      AlignLines(seg.sectionEndAlign) + SectionAlignLines(seg.sectionsEndAlignment, section)
      + SymEndSizeLines(env.style.segmentSectionStart(seg.name, section), env.style.segmentSectionEnd(seg.name, section),
                        env.style.segmentSectionSize(seg.name, section), ".")
    else []
  }

  // ---------------------------------------------------------------------
  // Output-section headers

  function SubalignText(seg: Segment): string {
    if seg.subalign.Some? then " SUBALIGN(" + Decimal(seg.subalign.value) + ")" else ""
  }

  /** The virtual address of a loaded output section, by precedence: fixed
      address, anchor symbol, end of the followed segment, start of the
      segment's class, or none. */
  function PlacementText(env: Env, seg: Segment): string {
    if seg.fixedVram.Some? then " 0x" + Hex8(seg.fixedVram.value)
    else if seg.fixedSymbol.Some? then " " + seg.fixedSymbol.value
    else if seg.followsSegment.Some? then " " + env.style.segmentVramEnd(seg.followsSegment.value)
    else if seg.vramClass.Some? then " " + env.style.vramClassStart(seg.vramClass.value)
    else ""
  }

  /** The header line `write_segment_start` writes. */
  function SegmentHeader(env: Env, seg: Segment, noload: bool): string {
    "." + seg.name
    + (if noload then ".noload (NOLOAD) :"
       else PlacementText(env, seg) + " : AT(" + env.style.segmentRomStart(seg.name) + ")")
    + SubalignText(seg)
  }

  function FillLines(seg: Segment): seq<Line> {
    if seg.fillValue.Some? then [Text("FILL(0x" + Hex8(seg.fillValue.value) + ");")] else []
  }

  // ---------------------------------------------------------------------
  // Files

  /** Whether the selector for `section` is wrapped in `KEEP(...)`. */
  predicate Keeps(keep: KeepSections, section: string) {
    match keep
    case KeepAbsent => false
    case KeepAll(all) => all
    case KeepWhichOnes(whichOnes) => section in whichOnes
  }

  /** `emit_file`: what one file contributes to section `k`. */
  function FileLines(env: Env, seg: Segment, f: FileInfo, k: string, sections: seq<string>, base: Path): seq<Line>
    decreases Size(f), 0, 0, 0
  {
    if !env.shouldEmit(f.conditions) then []
    else match f.kind
      case Object => [InputSection(Keeps(f.keepSections, k), env.push(base, f.path), None, k, seg.wildcardSections)]
      case Archive => [InputSection(Keeps(f.keepSections, k), env.push(base, f.path), Some(f.subfile), k, seg.wildcardSections)]
      case Pad => if f.section == k then [Text(". += 0x" + Hex(f.padAmount) + ";")] else []
      case LinkerOffset => if f.section == k then [Symbol(env.style.linkerOffset(f.linkerOffsetName), ".")] else []
      case Group => FilesLines(env, seg, f.files, k, sections, env.push(base, f.dir))
  }

  /** One resolved section of a file: its own lines, then (unless partial
      objects are referenced) the subgroup sections the segment lists under
      that section, while the depth bound lasts. */
  function UnitLines(env: Env, seg: Segment, f: FileInfo, k: string, sections: seq<string>, base: Path, fuel: nat): seq<Line>
    decreases Size(f), fuel, 1, 0
  {
    FileLines(env, seg, f, k, sections, base)
    + (if !env.referencePartialObjects && k in seg.sectionsSubgroups && fuel > 0
       then SubgroupLines(env, seg, f, seg.sectionsSubgroups[k], sections, base, fuel - 1)
       else [])
  }

  /** The units of the sections in `here`, in order. */
  function ResolvedLines(env: Env, seg: Segment, f: FileInfo, here: seq<string>, sections: seq<string>, base: Path, fuel: nat): seq<Line>
    decreases Size(f), fuel, 2, |here|
  {
    if here == [] then []
    else ResolvedLines(env, seg, f, here[..|here| - 1], sections, base, fuel)
         + UnitLines(env, seg, f, here[|here| - 1], sections, base, fuel)
  }

  /** `emit_section_for_file`. */
  function SectionForFileLines(env: Env, seg: Segment, f: FileInfo, section: string, sections: seq<string>, base: Path, fuel: nat): seq<Line>
    decreases Size(f), fuel, 3, 0
  {
    if f.sectionOrder != [] then ResolvedLines(env, seg, f, Resolve(f.sectionOrder, section, sections), sections, base, fuel)
    else UnitLines(env, seg, f, section, sections, base, fuel)
  }

  /** The file's lines for each subgroup section in `others`, in order. */
  function SubgroupLines(env: Env, seg: Segment, f: FileInfo, others: seq<string>, sections: seq<string>, base: Path, fuel: nat): seq<Line>
    decreases Size(f), fuel, 4, |others|
  {
    if others == [] then []
    else SubgroupLines(env, seg, f, others[..|others| - 1], sections, base, fuel)
         + SectionForFileLines(env, seg, f, others[|others| - 1], sections, base, fuel)
  }

  /** Every file of `fs` in turn, for section `k`, each starting with the
      full subgroup depth. */
  function FilesLines(env: Env, seg: Segment, fs: seq<FileInfo>, k: string, sections: seq<string>, base: Path): seq<Line>
    decreases SizeAll(fs), 0, 0, |fs|
  {
    if fs == [] then []
    else FilesLines(env, seg, fs[..|fs| - 1], k, sections, base)
         + SectionForFileLines(env, seg, fs[|fs| - 1], k, sections, base, env.subgroupDepth)
  }

  /** The base path of a segment's files: the configured base path, extended
      by the segment's directory unless partial objects are referenced. */
  function SectionBase(env: Env, seg: Segment): Path {
    if env.referencePartialObjects then env.settings.basePath else env.push(env.settings.basePath, seg.dir)
  }

  /** `emit_section`. */
  function SectionLines(env: Env, seg: Segment, section: string, sections: seq<string>): seq<Line> {
    FilesLines(env, seg, seg.files, section, sections, SectionBase(env, seg))
  }

  // ---------------------------------------------------------------------
  // Output sections

  function Separator(sections: seq<string>, i: nat): seq<Line> {
    if i + 1 < |sections| then [Empty] else []
  }

  /** The body of iteration `i` of the section loop of `write_segment`. */
  function SectionBlock(env: Env, seg: Segment, sections: seq<string>, i: nat): seq<Line>
    requires i < |sections|
  {
    SectionStartLines(env, seg, sections[i]) + SectionLines(env, seg, sections[i], sections)
    + SectionEndLines(env, seg, sections[i]) + Separator(sections, i)
  }

  function SectionBlocks(env: Env, seg: Segment, sections: seq<string>, n: nat): seq<Line>
    requires n <= |sections|
  {
    if n == 0 then [] else SectionBlocks(env, seg, sections, n - 1) + SectionBlock(env, seg, sections, n - 1)
  }

  /** `write_segment`: one output section holding every listed section. */
  function WriteSegmentLines(env: Env, seg: Segment, sections: seq<string>, noload: bool): seq<Line> {
    KindStartLines(env, seg, noload) + [Text(SegmentHeader(env, seg, noload)), BeginBlock] + FillLines(seg)
    + SectionBlocks(env, seg, sections, |sections|) + [EndBlock] + KindEndLines(env, seg, noload)
  }

  /** The text `write_single_segment` puts after a section's name in its
      header: the NOLOAD marker for a NOLOAD segment. */
  function NoloadSuffix(noload: bool): string {
    if noload then " (NOLOAD)" else ""
  }

  /** The opening of one output section of `write_single_segment`: the
      section's start markers, its header line and its fill. */
  function SingleSectionStartLines(env: Env, seg: Segment, section: string, suffix: string): seq<Line> {
    SectionStartLines(env, seg, section)
    + [Text(section + suffix + " :" + SubalignText(seg)), BeginBlock]
    + FillLines(seg)
  }

  /** The closing of one output section of `write_single_segment`: the
      end of its block, its end markers and the separator. */
  function SingleSectionEndLines(env: Env, seg: Segment, sections: seq<string>, i: nat): seq<Line>
    requires i < |sections|
  {
    [EndBlock] + SectionEndLines(env, seg, sections[i]) + Separator(sections, i)
  }

  /** The body of iteration `i` of the section loop of `write_single_segment`:
      each section becomes its own output section. */
  function SingleSectionBlock(env: Env, seg: Segment, sections: seq<string>, suffix: string, i: nat): seq<Line>
    requires i < |sections|
  {
    SingleSectionStartLines(env, seg, sections[i], suffix)
    + SectionLines(env, seg, sections[i], sections)
    + SingleSectionEndLines(env, seg, sections, i)
  }

  function SingleSectionBlocks(env: Env, seg: Segment, sections: seq<string>, suffix: string, n: nat): seq<Line>
    requires n <= |sections|
  {
    if n == 0 then [] else SingleSectionBlocks(env, seg, sections, suffix, n - 1) + SingleSectionBlock(env, seg, sections, suffix, n - 1)
  }

  /** `write_single_segment`. */
  function WriteSingleSegmentLines(env: Env, seg: Segment, sections: seq<string>, noload: bool): seq<Line> {
    KindStartLines(env, seg, noload) + SingleSectionBlocks(env, seg, sections, NoloadSuffix(noload), |sections|) + KindEndLines(env, seg, noload)
  }

  // ---------------------------------------------------------------------
  // Properties of a file's contribution

  /** The only line a non-group file can contribute, given the section it
      was emitted for: a selector of its path (archive member qualified,
      `KEEP`-wrapped exactly when its keep policy names that section), a
      counter advance, or its offset marker. */
  predicate LeafLine(env: Env, seg: Segment, f: FileInfo, base: Path, l: Line) {
    match f.kind
    case Object =>
      l.InputSection? && l == InputSection(Keeps(f.keepSections, l.section), env.push(base, f.path), None, l.section, seg.wildcardSections)
    case Archive =>
      l.InputSection? && l == InputSection(Keeps(f.keepSections, l.section), env.push(base, f.path), Some(f.subfile), l.section, seg.wildcardSections)
    case Pad => l == Text(". += 0x" + Hex(f.padAmount) + ";")
    case LinkerOffset => l == Symbol(env.style.linkerOffset(f.linkerOffsetName), ".")
    case Group => true
  }

  predicate AllLeaf(env: Env, seg: Segment, f: FileInfo, base: Path, ls: seq<Line>) {
    forall i :: 0 <= i < |ls| ==> LeafLine(env, seg, f, base, ls[i])
  }

  lemma AllLeafConcat(env: Env, seg: Segment, f: FileInfo, base: Path, a: seq<Line>, b: seq<Line>)
    requires AllLeaf(env, seg, f, base, a) && AllLeaf(env, seg, f, base, b)
    ensures AllLeaf(env, seg, f, base, a + b)
  {
    forall i | 0 <= i < |a + b| ensures LeafLine(env, seg, f, base, (a + b)[i]) {
      if i >= |a| {
        assert (a + b)[i] == b[i - |a|];
      }
    }
  }

  /** Redirection and subgroups never change what a non-group file writes,
      only for which sections: every line it contributes under
      `emit_section_for_file` is a `LeafLine`. */
  lemma {:induction false} SectionForFileLeaf(env: Env, seg: Segment, f: FileInfo, section: string, sections: seq<string>, base: Path, fuel: nat)
    requires f.kind != Group
    ensures AllLeaf(env, seg, f, base, SectionForFileLines(env, seg, f, section, sections, base, fuel))
    decreases fuel, 3, 0
  {
    if f.sectionOrder != [] {
      ResolvedLeaf(env, seg, f, Resolve(f.sectionOrder, section, sections), sections, base, fuel);
    } else {
      UnitLeaf(env, seg, f, section, sections, base, fuel);
    }
  }

  lemma {:induction false} UnitLeaf(env: Env, seg: Segment, f: FileInfo, k: string, sections: seq<string>, base: Path, fuel: nat)
    requires f.kind != Group
    ensures AllLeaf(env, seg, f, base, UnitLines(env, seg, f, k, sections, base, fuel))
    decreases fuel, 1, 0
  {
    var own := FileLines(env, seg, f, k, sections, base);
    assert AllLeaf(env, seg, f, base, own);
    if !env.referencePartialObjects && k in seg.sectionsSubgroups && fuel > 0 {
      SubgroupLeaf(env, seg, f, seg.sectionsSubgroups[k], sections, base, fuel - 1);
      AllLeafConcat(env, seg, f, base, own, SubgroupLines(env, seg, f, seg.sectionsSubgroups[k], sections, base, fuel - 1));
    } else {
      assert UnitLines(env, seg, f, k, sections, base, fuel) == own + [];
    }
  }

  lemma {:induction false} ResolvedLeaf(env: Env, seg: Segment, f: FileInfo, here: seq<string>, sections: seq<string>, base: Path, fuel: nat)
    requires f.kind != Group
    ensures AllLeaf(env, seg, f, base, ResolvedLines(env, seg, f, here, sections, base, fuel))
    decreases fuel, 2, |here|
  {
    if here != [] {
      ResolvedLeaf(env, seg, f, here[..|here| - 1], sections, base, fuel);
      UnitLeaf(env, seg, f, here[|here| - 1], sections, base, fuel);
      AllLeafConcat(env, seg, f, base, ResolvedLines(env, seg, f, here[..|here| - 1], sections, base, fuel),
                    UnitLines(env, seg, f, here[|here| - 1], sections, base, fuel));
    }
  }

  lemma {:induction false} SubgroupLeaf(env: Env, seg: Segment, f: FileInfo, others: seq<string>, sections: seq<string>, base: Path, fuel: nat)
    requires f.kind != Group
    ensures AllLeaf(env, seg, f, base, SubgroupLines(env, seg, f, others, sections, base, fuel))
    decreases fuel, 4, |others|
  {
    if others != [] {
      SubgroupLeaf(env, seg, f, others[..|others| - 1], sections, base, fuel);
      SectionForFileLeaf(env, seg, f, others[|others| - 1], sections, base, fuel);
      AllLeafConcat(env, seg, f, base, SubgroupLines(env, seg, f, others[..|others| - 1], sections, base, fuel),
                    SectionForFileLines(env, seg, f, others[|others| - 1], sections, base, fuel));
    }
  }

  /** Padding and offset markers never reference an input file. */
  lemma PadAndOffsetReferenceNoFile(env: Env, seg: Segment, f: FileInfo, section: string, sections: seq<string>, base: Path, fuel: nat)
    requires f.kind == Pad || f.kind == LinkerOffset
    ensures InputPaths(SectionForFileLines(env, seg, f, section, sections, base, fuel)) == []
  {
    var ls := SectionForFileLines(env, seg, f, section, sections, base, fuel);
    SectionForFileLeaf(env, seg, f, section, sections, base, fuel);
    NoSelectorsNoPaths(ls);
  }

  /** A file the runtime conditions exclude contributes no line, for any
      section, subgroup sections and group members included. */
  lemma {:induction false} ExcludedFileContributesNothing(env: Env, seg: Segment, f: FileInfo, section: string, sections: seq<string>, base: Path, fuel: nat)
    requires !env.shouldEmit(f.conditions)
    ensures SectionForFileLines(env, seg, f, section, sections, base, fuel) == []
    decreases fuel, 3, 0
  {
    if f.sectionOrder != [] {
      ExcludedResolved(env, seg, f, Resolve(f.sectionOrder, section, sections), sections, base, fuel);
    } else {
      ExcludedUnit(env, seg, f, section, sections, base, fuel);
    }
  }

  lemma {:induction false} ExcludedUnit(env: Env, seg: Segment, f: FileInfo, k: string, sections: seq<string>, base: Path, fuel: nat)
    requires !env.shouldEmit(f.conditions)
    ensures UnitLines(env, seg, f, k, sections, base, fuel) == []
    decreases fuel, 1, 0
  {
    if !env.referencePartialObjects && k in seg.sectionsSubgroups && fuel > 0 {
      ExcludedSubgroup(env, seg, f, seg.sectionsSubgroups[k], sections, base, fuel - 1);
    }
  }

  lemma {:induction false} ExcludedResolved(env: Env, seg: Segment, f: FileInfo, here: seq<string>, sections: seq<string>, base: Path, fuel: nat)
    requires !env.shouldEmit(f.conditions)
    ensures ResolvedLines(env, seg, f, here, sections, base, fuel) == []
    decreases fuel, 2, |here|
  {
    if here != [] {
      ExcludedResolved(env, seg, f, here[..|here| - 1], sections, base, fuel);
      ExcludedUnit(env, seg, f, here[|here| - 1], sections, base, fuel);
    }
  }

  lemma {:induction false} ExcludedSubgroup(env: Env, seg: Segment, f: FileInfo, others: seq<string>, sections: seq<string>, base: Path, fuel: nat)
    requires !env.shouldEmit(f.conditions)
    ensures SubgroupLines(env, seg, f, others, sections, base, fuel) == []
    decreases fuel, 4, |others|
  {
    if others != [] {
      ExcludedSubgroup(env, seg, f, others[..|others| - 1], sections, base, fuel);
      ExcludedFileContributesNothing(env, seg, f, others[|others| - 1], sections, base, fuel);
    }
  }

  // ---------------------------------------------------------------------
  // The subgroup depth bound

  /** Whether subgroup sections are inlined after section `k`. */
  predicate Inlines(env: Env, seg: Segment, k: string) {
    !env.referencePartialObjects && k in seg.sectionsSubgroups
  }

  /** The sections file `f` contributes while `o` is being filled. */
  function HereFor(f: FileInfo, o: string, sections: seq<string>): seq<string> {
    if f.sectionOrder != [] then Resolve(f.sectionOrder, o, sections) else [o]
  }

  /** The subgroup inlining below resolved section `k` of file `f` ends
      within `d` levels: every chain of subgroup sections, followed through
      the file's redirection, is at most `d` long. A cyclic chain never ends
      within any `d`. */
  predicate UnitSettles(env: Env, seg: Segment, f: FileInfo, sections: seq<string>, k: string, d: nat)
    decreases d, 0
  {
    Inlines(env, seg, k) ==>
      d > 0 && forall o :: o in seg.sectionsSubgroups[k] ==> SectionSettles(env, seg, f, sections, o, d - 1)
  }

  /** The same for every section `f` contributes while `o` is being filled. */
  predicate SectionSettles(env: Env, seg: Segment, f: FileInfo, sections: seq<string>, o: string, d: nat)
    decreases d, 1
  {
    forall k :: k in HereFor(f, o, sections) ==> UnitSettles(env, seg, f, sections, k, d)
  }

  /** The subgroup depth of section `k` in the segment's subgroup table alone:
      `k` has no subgroups, or each of its subgroup sections has depth below
      `d`. An acyclic table gives every section a finite depth. */
  predicate SubgroupDepthWithin(g: map<string, seq<string>>, k: string, d: nat)
    decreases d
  {
    k in g ==> d > 0 && forall o :: o in g[k] ==> SubgroupDepthWithin(g, o, d - 1)
  }

  /** Without redirection, the inlining under a section ends within its
      subgroup depth. */
  lemma {:induction false} UnredirectedSettles(env: Env, seg: Segment, f: FileInfo, sections: seq<string>, k: string, d: nat)
    requires f.sectionOrder == [] && SubgroupDepthWithin(seg.sectionsSubgroups, k, d)
    ensures SectionSettles(env, seg, f, sections, k, d)
    decreases d
  {
    assert HereFor(f, k, sections) == [k];
    if Inlines(env, seg, k) {
      forall o | o in seg.sectionsSubgroups[k] ensures SectionSettles(env, seg, f, sections, o, d - 1) {
        UnredirectedSettles(env, seg, f, sections, o, d - 1);
      }
    }
  }

  /** Once the bound reaches the depth at which a file's subgroup inlining
      ends, a larger bound writes the same lines: the bounded model then
      writes what the unbounded recursion of the source writes. */
  lemma {:induction false} SectionStable(env: Env, seg: Segment, f: FileInfo, o: string, sections: seq<string>, base: Path, d: nat, fuel: nat)
    requires SectionSettles(env, seg, f, sections, o, d) && d <= fuel
    ensures SectionForFileLines(env, seg, f, o, sections, base, fuel) == SectionForFileLines(env, seg, f, o, sections, base, d)
    decreases d, 3, 0
  {
    var here := HereFor(f, o, sections);
    forall j | 0 <= j < |here| ensures UnitSettles(env, seg, f, sections, here[j], d) {
      assert here[j] in here;
    }
    if f.sectionOrder != [] {
      ResolvedStable(env, seg, f, here, sections, base, d, fuel);
    } else {
      UnitStable(env, seg, f, o, sections, base, d, fuel);
    }
  }

  lemma {:induction false} UnitStable(env: Env, seg: Segment, f: FileInfo, k: string, sections: seq<string>, base: Path, d: nat, fuel: nat)
    requires UnitSettles(env, seg, f, sections, k, d) && d <= fuel
    ensures UnitLines(env, seg, f, k, sections, base, fuel) == UnitLines(env, seg, f, k, sections, base, d)
    decreases d, 1, 0
  {
    if Inlines(env, seg, k) {
      var others := seg.sectionsSubgroups[k];
      forall j | 0 <= j < |others| ensures SectionSettles(env, seg, f, sections, others[j], d - 1) {
        assert others[j] in others;
      }
      SubgroupStable(env, seg, f, others, sections, base, d - 1, fuel - 1);
    }
  }

  lemma {:induction false} ResolvedStable(env: Env, seg: Segment, f: FileInfo, here: seq<string>, sections: seq<string>, base: Path, d: nat, fuel: nat)
    requires forall j :: 0 <= j < |here| ==> UnitSettles(env, seg, f, sections, here[j], d)
    requires d <= fuel
    ensures ResolvedLines(env, seg, f, here, sections, base, fuel) == ResolvedLines(env, seg, f, here, sections, base, d)
    decreases d, 2, |here|
  {
    if here != [] {
      ResolvedStable(env, seg, f, here[..|here| - 1], sections, base, d, fuel);
      UnitStable(env, seg, f, here[|here| - 1], sections, base, d, fuel);
    }
  }

  lemma {:induction false} SubgroupStable(env: Env, seg: Segment, f: FileInfo, others: seq<string>, sections: seq<string>, base: Path, d: nat, fuel: nat)
    requires forall j :: 0 <= j < |others| ==> SectionSettles(env, seg, f, sections, others[j], d)
    requires d <= fuel
    ensures SubgroupLines(env, seg, f, others, sections, base, fuel) == SubgroupLines(env, seg, f, others, sections, base, d)
    decreases d, 4, |others|
  {
    if others != [] {
      SubgroupStable(env, seg, f, others[..|others| - 1], sections, base, d, fuel);
      SectionStable(env, seg, f, others[|others| - 1], sections, base, d, fuel);
    }
  }

  /** File `f` and, for a group, every member at any depth settle within `n`
      levels for every section they may be asked for. Members start again
      at the writer's bound, so `n` bounds the writer's `subgroupDepth`. */
  ghost predicate DeepSettles(env: Env, seg: Segment, f: FileInfo, sections: seq<string>, n: nat)
    decreases Size(f), 1
  {
    && (forall o :: SectionSettles(env, seg, f, sections, o, n))
    && (f.kind == Group ==> AllDeepSettle(env, seg, f.files, sections, n))
  }

  ghost predicate AllDeepSettle(env: Env, seg: Segment, fs: seq<FileInfo>, sections: seq<string>, n: nat)
    decreases SizeAll(fs), 0
  {
    fs != [] ==> AllDeepSettle(env, seg, fs[..|fs| - 1], sections, n) && DeepSettles(env, seg, fs[|fs| - 1], sections, n)
  }

  /** Once the writer's bound reaches a depth `n` at which every file of the
      segment, group members included, settles, a larger bound makes
      `emit_section` write the same lines: from `n` on, the bounded model
      writes what the unbounded recursion of the source writes. */
  lemma SectionLinesSettle(env: Env, seg: Segment, section: string, sections: seq<string>, n: nat, m: nat)
    requires AllDeepSettle(env, seg, seg.files, sections, n) && n <= m
    ensures SectionLines(env.(subgroupDepth := m), seg, section, sections) == SectionLines(env.(subgroupDepth := n), seg, section, sections)
  {
    FilesDeep(env, seg, seg.files, section, sections, SectionBase(env, seg), n, m);
  }

  lemma {:induction false} FileDeep(env: Env, seg: Segment, f: FileInfo, k: string, sections: seq<string>, base: Path, n: nat, m: nat)
    requires n <= m && (f.kind == Group ==> AllDeepSettle(env, seg, f.files, sections, n))
    ensures FileLines(env.(subgroupDepth := m), seg, f, k, sections, base) == FileLines(env.(subgroupDepth := n), seg, f, k, sections, base)
    decreases Size(f), 0, 0, 0
  {
    if f.kind == Group && env.shouldEmit(f.conditions) {
      FilesDeep(env, seg, f.files, k, sections, env.push(base, f.dir), n, m);
    }
  }

  lemma {:induction false} FilesDeep(env: Env, seg: Segment, fs: seq<FileInfo>, k: string, sections: seq<string>, base: Path, n: nat, m: nat)
    requires n <= m && AllDeepSettle(env, seg, fs, sections, n)
    ensures FilesLines(env.(subgroupDepth := m), seg, fs, k, sections, base) == FilesLines(env.(subgroupDepth := n), seg, fs, k, sections, base)
    decreases SizeAll(fs), 0, 0, |fs|
  {
    if fs != [] {
      var last := fs[|fs| - 1];
      FilesDeep(env, seg, fs[..|fs| - 1], k, sections, base, n, m);
      assert SectionSettles(env, seg, last, sections, k, n);
      SectionDeep(env, seg, last, k, sections, base, n, m, n, m);
    }
  }

  lemma {:induction false} SectionDeep(env: Env, seg: Segment, f: FileInfo, o: string, sections: seq<string>, base: Path, n: nat, m: nat, d: nat, fuel: nat)
    requires n <= m && (f.kind == Group ==> AllDeepSettle(env, seg, f.files, sections, n))
    requires SectionSettles(env, seg, f, sections, o, d) && d <= fuel
    ensures SectionForFileLines(env.(subgroupDepth := m), seg, f, o, sections, base, fuel)
         == SectionForFileLines(env.(subgroupDepth := n), seg, f, o, sections, base, d)
    decreases Size(f), d, 3, 0
  {
    var here := HereFor(f, o, sections);
    forall j | 0 <= j < |here| ensures UnitSettles(env, seg, f, sections, here[j], d) {
      assert here[j] in here;
    }
    if f.sectionOrder != [] {
      ResolvedDeep(env, seg, f, here, sections, base, n, m, d, fuel);
    } else {
      UnitDeep(env, seg, f, o, sections, base, n, m, d, fuel);
    }
  }

  lemma {:induction false} UnitDeep(env: Env, seg: Segment, f: FileInfo, k: string, sections: seq<string>, base: Path, n: nat, m: nat, d: nat, fuel: nat)
    requires n <= m && (f.kind == Group ==> AllDeepSettle(env, seg, f.files, sections, n))
    requires UnitSettles(env, seg, f, sections, k, d) && d <= fuel
    ensures UnitLines(env.(subgroupDepth := m), seg, f, k, sections, base, fuel)
         == UnitLines(env.(subgroupDepth := n), seg, f, k, sections, base, d)
    decreases Size(f), d, 1, 0
  {
    FileDeep(env, seg, f, k, sections, base, n, m);
    if Inlines(env, seg, k) {
      var others := seg.sectionsSubgroups[k];
      forall j | 0 <= j < |others| ensures SectionSettles(env, seg, f, sections, others[j], d - 1) {
        assert others[j] in others;
      }
      SubgroupDeep(env, seg, f, others, sections, base, n, m, d - 1, fuel - 1);
    }
  }

  lemma {:induction false} ResolvedDeep(env: Env, seg: Segment, f: FileInfo, here: seq<string>, sections: seq<string>, base: Path, n: nat, m: nat, d: nat, fuel: nat)
    requires n <= m && (f.kind == Group ==> AllDeepSettle(env, seg, f.files, sections, n))
    requires forall j :: 0 <= j < |here| ==> UnitSettles(env, seg, f, sections, here[j], d)
    requires d <= fuel
    ensures ResolvedLines(env.(subgroupDepth := m), seg, f, here, sections, base, fuel)
         == ResolvedLines(env.(subgroupDepth := n), seg, f, here, sections, base, d)
    decreases Size(f), d, 2, |here|
  {
    if here != [] {
      ResolvedDeep(env, seg, f, here[..|here| - 1], sections, base, n, m, d, fuel);
      UnitDeep(env, seg, f, here[|here| - 1], sections, base, n, m, d, fuel);
    }
  }

  lemma {:induction false} SubgroupDeep(env: Env, seg: Segment, f: FileInfo, others: seq<string>, sections: seq<string>, base: Path, n: nat, m: nat, d: nat, fuel: nat)
    requires n <= m && (f.kind == Group ==> AllDeepSettle(env, seg, f.files, sections, n))
    requires forall j :: 0 <= j < |others| ==> SectionSettles(env, seg, f, sections, others[j], d)
    requires d <= fuel
    ensures SubgroupLines(env.(subgroupDepth := m), seg, f, others, sections, base, fuel)
         == SubgroupLines(env.(subgroupDepth := n), seg, f, others, sections, base, d)
    decreases Size(f), d, 4, |others|
  {
    if others != [] {
      SubgroupDeep(env, seg, f, others[..|others| - 1], sections, base, n, m, d, fuel);
      SectionDeep(env, seg, f, others[|others| - 1], sections, base, n, m, d, fuel);
    }
  }

  /** An object file without redirection contributes its own selector for
      `section` first, and nothing else unless subgroup sections are
      inlined, which never happens when partial objects are referenced. */
  lemma UnredirectedFile(env: Env, seg: Segment, f: FileInfo, section: string, sections: seq<string>, base: Path, fuel: nat)
    requires f.kind == Object && f.sectionOrder == [] && env.shouldEmit(f.conditions)
    ensures var ls := SectionForFileLines(env, seg, f, section, sections, base, fuel);
      && |ls| >= 1
      && ls[0] == InputSection(Keeps(f.keepSections, section), env.push(base, f.path), None, section, seg.wildcardSections)
      && (env.referencePartialObjects || section !in seg.sectionsSubgroups || fuel == 0 ==> |ls| == 1)
  {
    var own := FileLines(env, seg, f, section, sections, base);
    assert |own| == 1;
    assert SectionForFileLines(env, seg, f, section, sections, base, fuel) == UnitLines(env, seg, f, section, sections, base, fuel);
    if env.referencePartialObjects || section !in seg.sectionsSubgroups || fuel == 0 {
      assert UnitLines(env, seg, f, section, sections, base, fuel) == own + [];
    }
  }
}
