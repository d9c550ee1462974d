/**
 * The linker-script writer: an object that accumulates the script's lines,
 * the registry of address markers and the set of referenced input paths,
 * and keeps the address-class table whose `emitted` flags it updates.
 * Every state-changing method is proved to append exactly the lines its
 * specification function (modules Emission and Segments) describes.
 */
module Writer {
  import opened Errors
  import opened Seqs
  import opened NumberText
  import opened ScriptModel
  import opened SectionOrder
  import opened Emission
  import opened Segments
  import opened Exports

  // ---------------------------------------------------------------------
  // The address-class table, as an insertion-ordered map

  /** The key order of the table built from `classes`: first occurrence of
      each name. */
  function ClassOrder(classes: seq<VramClass>): seq<string> {
    if classes == [] then [] else Insert(ClassOrder(classes[..|classes| - 1]), classes[|classes| - 1].name)
  }

  /** The table's entries: a later class replaces an earlier one of the same
      name. */
  function ClassMap(classes: seq<VramClass>): map<string, VramClass> {
    if classes == [] then map[] else ClassMap(classes[..|classes| - 1])[classes[|classes| - 1].name := classes[|classes| - 1]]
  }

  /** Every class name is a key exactly once, in first-occurrence order, and
      nothing else is. */
  lemma {:induction false} ClassTableShape(classes: seq<VramClass>)
    ensures NoDup(ClassOrder(classes))
    ensures forall n :: n in ClassMap(classes) <==> n in ClassOrder(classes)
    ensures forall i :: 0 <= i < |classes| ==> classes[i].name in ClassOrder(classes)
    ensures forall n :: n in ClassOrder(classes) ==> exists i :: 0 <= i < |classes| && classes[i].name == n
    decreases |classes|
  {
    if classes != [] {
      var prefix := classes[..|classes| - 1];
      ClassTableShape(prefix);
      InsertProps(ClassOrder(prefix), classes[|classes| - 1].name);
      forall n | n in ClassOrder(classes) ensures exists i :: 0 <= i < |classes| && classes[i].name == n {
        if n != classes[|classes| - 1].name {
          var i :| 0 <= i < |prefix| && prefix[i].name == n;
          assert classes[i].name == n;
        }
      }
      forall i | 0 <= i < |classes| ensures classes[i].name in ClassOrder(classes) {
        if i < |prefix| {
          assert prefix[i].name in ClassOrder(prefix);
        }
      }
    }
  }

  /** A name's entry is the last class declared with that name. */
  lemma {:induction false} LaterDefinitionWins(classes: seq<VramClass>, i: nat)
    requires i < |classes|
    requires forall j :: i < j < |classes| ==> classes[j].name != classes[i].name
    ensures classes[i].name in ClassMap(classes) && ClassMap(classes)[classes[i].name] == classes[i]
    decreases |classes|
  {
    if i < |classes| - 1 {
      LaterDefinitionWins(classes[..|classes| - 1], i);
    }
  }

  /** The table-building loop of `LinkerWriter::new`. */
  method IndexClasses(classes: seq<VramClass>) returns (names: seq<string>, table: map<string, VramClass>)
    ensures names == ClassOrder(classes) && table == ClassMap(classes)
    ensures NoDup(names) && forall n :: n in table <==> n in names
  {
    names := [];
    table := map[];
    var i := 0;
    while i < |classes|
      invariant 0 <= i <= |classes|
      invariant names == ClassOrder(classes[..i]) && table == ClassMap(classes[..i])
      invariant forall n :: n in table <==> n in names
    {
      var vc := classes[i];
      assert classes[..i + 1][..i] == classes[..i];
      if vc.name !in table {
        names := names + [vc.name];
      }
      table := table[vc.name := vc];
      i := i + 1;
    }
    assert classes[..i] == classes;
    ClassTableShape(classes);
  }

  /** Every input a selector of a consistent script names has its rule in
      the dependency file. */
  lemma RulesCoverInputs(s: WriterState, target: string)
    requires Consistent(s)
    ensures forall i :: 0 <= i < |s.lines| && s.lines[i].InputSection? ==>
      s.lines[i].path + ":\n" in DependencyChunks(target, s.filesPaths)
  {
    ApplyNothing(s);
    ApplyKeepsConsistent(s, []);
    DependencyShape(target, s.filesPaths);
    var d := DependencyChunks(target, s.filesPaths);
    forall k | 0 <= k < |s.lines| && s.lines[k].InputSection? ensures s.lines[k].path + ":\n" in d {
      var n :| 0 <= n < |s.filesPaths| && s.filesPaths[n] == s.lines[k].path;
      assert d[|s.filesPaths| + 2 + n] == s.lines[k].path + ":\n";
    }
  }

  /** Every address marker of a consistent script is declared in the
      symbol header. */
  lemma ExternsCoverMarkers(s: WriterState, ty: string, asArray: bool)
    requires Consistent(s)
    ensures forall i :: 0 <= i < |s.lines| && s.lines[i].Symbol? ==>
      "extern " + ty + " " + s.lines[i].name + ArraySuffix(asArray) + ";\n" in HeaderChunks(ty, asArray, s.symbols)
  {
    ApplyNothing(s);
    ApplyKeepsConsistent(s, []);
    HeaderShape(ty, asArray, s.symbols);
    var h := HeaderChunks(ty, asArray, s.symbols);
    forall k | 0 <= k < |s.lines| && s.lines[k].Symbol?
      ensures "extern " + ty + " " + s.lines[k].name + ArraySuffix(asArray) + ";\n" in h
    {
      var n :| 0 <= n < |s.symbols| && s.symbols[n] == s.lines[k].name;
      assert h[1 + n] == "extern " + ty + " " + s.lines[k].name + ArraySuffix(asArray) + ";\n";
    }
  }

  // ---------------------------------------------------------------------
  // The writer

  class LinkerWriter {
    var lines: seq<Line>
    var symbols: seq<string>
    var filesPaths: seq<Path>
    var classNames: seq<string>
    var vramClasses: map<string, VramClass>
    var singleSegment: bool
    var emitSectionsKindSymbols: bool
    var emitSectionSymbols: bool

    const settings: Settings
    const style: SymbolsStyle
    const shouldEmit: Conditions -> bool
    const push: (Path, Path) -> Path
    const referencePartialObjects: bool
    const subgroupDepth: nat

    /** The accumulated output. */
    function State(): WriterState
      reads this
    {
      WriterState(lines, symbols, filesPaths)
    }

    /** What emission reads: the document's settings, the collaborators and
        the two marker switches. */
    function Context(): Env
      reads this
    {
      Env(settings, style, shouldEmit, push, referencePartialObjects, emitSectionsKindSymbols, emitSectionSymbols, subgroupDepth)
    }

    /** The class table and the single-segment flag. */
    function Tables(): (seq<string>, map<string, VramClass>, bool)
      reads this
    {
      (classNames, vramClasses, singleSegment)
    }

    /** The registry and the path set match the lines, and the class table's
        key order lists each key once. */
    ghost predicate Valid()
      reads this
    {
      Consistent(State()) && NoDup(classNames) && forall n :: n in vramClasses <==> n in classNames
    }

    /** `LinkerWriter::new`: an empty buffer, the document's classes indexed
        by name, both marker switches on. */
    constructor New(settings: Settings, style: SymbolsStyle, shouldEmit: Conditions -> bool,
                    push: (Path, Path) -> Path, subgroupDepth: nat, classes: seq<VramClass>)
      ensures State() == Initial
      ensures classNames == ClassOrder(classes) && vramClasses == ClassMap(classes) && !singleSegment
      ensures Context() == Env(settings, style, shouldEmit, push, false, true, true, subgroupDepth)
      ensures Valid()
    {
      var names, table := IndexClasses(classes);
      this.lines := [];
      this.symbols := [];
      this.filesPaths := [];
      this.classNames := names;
      this.vramClasses := table;
      this.singleSegment := false;
      this.emitSectionsKindSymbols := true;
      this.emitSectionSymbols := true;
      this.settings := settings;
      this.style := style;
      this.shouldEmit := shouldEmit;
      this.push := push;
      this.referencePartialObjects := false;
      this.subgroupDepth := subgroupDepth;
    }

    /** `LinkerWriter::new_reference_partial_objects`: the same, but files are
        referenced by their partially linked objects. */
    constructor NewReferencePartialObjects(settings: Settings, style: SymbolsStyle, shouldEmit: Conditions -> bool,
                                           push: (Path, Path) -> Path, subgroupDepth: nat, classes: seq<VramClass>)
      ensures State() == Initial
      ensures classNames == ClassOrder(classes) && vramClasses == ClassMap(classes) && !singleSegment
      ensures Context() == Env(settings, style, shouldEmit, push, true, true, true, subgroupDepth)
      ensures Valid()
    {
      var names, table := IndexClasses(classes);
      this.lines := [];
      this.symbols := [];
      this.filesPaths := [];
      this.classNames := names;
      this.vramClasses := table;
      this.singleSegment := false;
      this.emitSectionsKindSymbols := true;
      this.emitSectionSymbols := true;
      this.settings := settings;
      this.style := style;
      this.shouldEmit := shouldEmit;
      this.push := push;
      this.referencePartialObjects := true;
      this.subgroupDepth := subgroupDepth;
    }

    method SetEmitSectionsKindSymbols(value: bool)
      modifies this
      ensures emitSectionsKindSymbols == value
      ensures State() == old(State()) && Tables() == old(Tables()) && emitSectionSymbols == old(emitSectionSymbols)
    {
      emitSectionsKindSymbols := value;
    }

    method SetEmitSectionSymbols(value: bool)
      modifies this
      ensures emitSectionSymbols == value
      ensures State() == old(State()) && Tables() == old(Tables()) && emitSectionsKindSymbols == old(emitSectionsKindSymbols)
    {
      emitSectionSymbols := value;
    }

    // -------------------------------------------------------------------
    // Buffer writes

    /** Consecutive buffer writes of lines other than selectors: each
        address marker's name is registered as the buffer does. */
    method Write(ls: seq<Line>)
      requires NoSelectors(ls)
      modifies this
      ensures State() == Apply(old(State()), ls)
      ensures Context() == old(Context()) && Tables() == old(Tables())
    {
      NoSelectorsNoPaths(ls);
      lines := lines + ls;
      symbols := AddAll(symbols, SymbolNames(ls));
    }

    /** `write_sym_end_size`. */
    method WriteSymEndSize(start: string, end: string, size: string, value: string)
      modifies this
      ensures State() == Apply(old(State()), SymEndSizeLines(start, end, size, value))
      ensures Context() == old(Context()) && Tables() == old(Tables())
    {
      var a := [Symbol(end, value)];
      var b := [Symbol(size, "ABSOLUTE(" + end + " - " + start + ")")];
      Write(a);
      Write(b);
      ApplyConcat(old(State()), a, b);
    }

    /** `write_sections_kind_start`. */
    method WriteSectionsKindStart(seg: Segment, noload: bool)
      modifies this
      ensures State() == Apply(old(State()), KindStartLines(Context(), seg, noload))
      ensures Context() == old(Context()) && Tables() == old(Tables())
    {
      if emitSectionsKindSymbols {
        var kind := seg.name + "_" + (if noload then "noload" else "alloc");
        Write([Symbol(style.segmentVramStart(kind), "."), Empty]);
      } else {
        Write([]);
      }
    }

    /** `write_sections_kind_end`. */
    method WriteSectionsKindEnd(seg: Segment, noload: bool)
      modifies this
      ensures State() == Apply(old(State()), KindEndLines(Context(), seg, noload))
      ensures Context() == old(Context()) && Tables() == old(Tables())
    {
      if emitSectionsKindSymbols {
        Write([Empty]);
        var kind := seg.name + "_" + (if noload then "noload" else "alloc");
        WriteSymEndSize(style.segmentVramStart(kind), style.segmentVramEnd(kind), style.segmentVramSize(kind), ".");
        ApplyConcat(old(State()), [Empty],
          SymEndSizeLines(style.segmentVramStart(kind), style.segmentVramEnd(kind), style.segmentVramSize(kind), "."));
      } else {
        Write([]);
      }
    }

    /** The global-pointer assignment of `write_section_symbol_start`. */
    method WriteGp(seg: Segment, section: string)
      modifies this
      ensures State() == Apply(old(State()), GpLines(Context(), seg, section))
      ensures Context() == old(Context()) && Tables() == old(Tables())
    {
      var c: seq<Line> := [];
      if seg.gpInfo.Some? {
        var gp := seg.gpInfo.value;
        if shouldEmit(gp.conditions) && gp.section == section {
          c := [Assignment("_gp", ". + 0x" + Hex(gp.offset), gp.provide, gp.hidden)];
        }
      }
      Write(c);
    }

    /** `write_section_symbol_start`. */
    method WriteSectionSymbolStart(seg: Segment, section: string)
      modifies this
      ensures State() == Apply(old(State()), SectionStartLines(Context(), seg, section))
      ensures Context() == old(Context()) && Tables() == old(Tables())
    {
      if emitSectionSymbols {
        var a := AlignLines(seg.sectionStartAlign);
        var b := SectionAlignLines(seg.sectionsStartAlignment, section);
        ghost var c := GpLines(Context(), seg, section);
        var d := [Symbol(style.segmentSectionStart(seg.name, section), ".")];
        Write(a);
        Write(b);
        ApplyConcat(old(State()), a, b);
        WriteGp(seg, section);
        ApplyConcat(old(State()), a + b, c);
        Write(d);
        ApplyConcat(old(State()), a + b + c, d);
      } else {
        Write([]);
      }
    }

    /** `write_section_symbol_end`. */
    method WriteSectionSymbolEnd(seg: Segment, section: string)
      modifies this
      ensures State() == Apply(old(State()), SectionEndLines(Context(), seg, section))
      ensures Context() == old(Context()) && Tables() == old(Tables())
    {
      if emitSectionSymbols {
        var a := AlignLines(seg.sectionEndAlign);
        var b := SectionAlignLines(seg.sectionsEndAlignment, section);
        Write(a);
        Write(b);
        ApplyConcat(old(State()), a, b);
        var start := style.segmentSectionStart(seg.name, section);
        var end := style.segmentSectionEnd(seg.name, section);
        var size := style.segmentSectionSize(seg.name, section);
        WriteSymEndSize(start, end, size, ".");
        ApplyConcat(old(State()), a + b, SymEndSizeLines(start, end, size, "."));
      } else {
        Write([]);
      }
    }

    /** The header line of `write_segment_start`, built piece by piece. */
    method HeaderLine(seg: Segment, noload: bool) returns (line: string)
      ensures line == SegmentHeader(Context(), seg, noload)
    {
      line := "." + seg.name;
      if noload {
        line := line + ".noload (NOLOAD) :";
      } else {
        var placement := PlacementOf(seg);
        line := line + (placement + " : AT(" + style.segmentRomStart(seg.name) + ")");
      }
      if seg.subalign.Some? {
        line := line + (" SUBALIGN(" + Decimal(seg.subalign.value) + ")");
      }
    }

    /** The virtual address part of a loaded output section's header. */
    method PlacementOf(seg: Segment) returns (placement: string)
      ensures placement == PlacementText(Context(), seg)
    {
      placement := "";
      if seg.fixedVram.Some? {
        placement := " 0x" + Hex8(seg.fixedVram.value);
      } else if seg.fixedSymbol.Some? {
        placement := " " + seg.fixedSymbol.value;
      } else if seg.followsSegment.Some? {
        placement := " " + style.segmentVramEnd(seg.followsSegment.value);
      } else if seg.vramClass.Some? {
        placement := " " + style.vramClassStart(seg.vramClass.value);
      }
    }

    /** `write_segment_start`: the per-kind start marker, the output
        section's header line and the opening of its block. */
    method WriteSegmentStart(seg: Segment, noload: bool)
      modifies this
      ensures State() == Apply(old(State()), KindStartLines(Context(), seg, noload) + [Text(SegmentHeader(Context(), seg, noload)), BeginBlock])
      ensures Context() == old(Context()) && Tables() == old(Tables())
    {
      WriteSectionsKindStart(seg, noload);
      var line := HeaderLine(seg, noload);
      Write([Text(line), BeginBlock]);
      ApplyConcat(old(State()), KindStartLines(Context(), seg, noload), [Text(line), BeginBlock]);
    }

    // -------------------------------------------------------------------
    // Files

    /** An input-section selector: the line is written and its path is
        recorded unless it is already recorded. */
    method WriteSelector(l: Line)
      requires l.InputSection?
      modifies this
      ensures State() == Apply(old(State()), [l])
      ensures Context() == old(Context()) && Tables() == old(Tables())
    {
      ApplyOne(State(), l);
      lines := lines + [l];
      if l.path !in filesPaths {
        filesPaths := filesPaths + [l.path];
      }
    }

    /** `emit_file`. */
    method EmitFile(f: FileInfo, seg: Segment, section: string, sections: seq<string>, base: Path)
      modifies this
      ensures State() == Apply(old(State()), FileLines(Context(), seg, f, section, sections, base))
      ensures Context() == old(Context()) && Tables() == old(Tables())
      decreases Size(f), 0, 0, 1
    {
      if !shouldEmit(f.conditions) {
        Write([]);
        return;
      }
      var keep := Keeps(f.keepSections, section);
      match f.kind {
        case Object =>
          WriteSelector(InputSection(keep, push(base, f.path), None, section, seg.wildcardSections));
        case Archive =>
          WriteSelector(InputSection(keep, push(base, f.path), Some(f.subfile), section, seg.wildcardSections));
        case Pad =>
          if f.section == section {
            Write([Text(". += 0x" + Hex(f.padAmount) + ";")]);
          } else {
            Write([]);
          }
        case LinkerOffset =>
          if f.section == section {
            Write([Symbol(style.linkerOffset(f.linkerOffsetName), ".")]);
          } else {
            Write([]);
          }
        case Group =>
          EmitFiles(f.files, seg, section, sections, push(base, f.dir), Size(f));
      }
    }

    /** The file loop of `emit_file` for a group and of `emit_section`:
        every file in turn, each with the full subgroup depth. `bound`
        exceeds the size of every file of `fs`. */
    method EmitFiles(fs: seq<FileInfo>, seg: Segment, section: string, sections: seq<string>, base: Path, ghost bound: nat)
      requires SizeAll(fs) < bound
      modifies this
      ensures State() == Apply(old(State()), FilesLines(Context(), seg, fs, section, sections, base))
      ensures Context() == old(Context()) && Tables() == old(Tables())
      decreases bound, 0, 0, 0
    {
      var i := 0;
      while i < |fs|
        invariant 0 <= i <= |fs|
        invariant State() == Apply(old(State()), FilesLines(Context(), seg, fs[..i], section, sections, base))
        invariant Context() == old(Context()) && Tables() == old(Tables())
      {
        SizeMember(fs, i);
        EmitSectionForFile(fs[i], seg, section, sections, base, subgroupDepth);
        ApplyConcat(old(State()), FilesLines(Context(), seg, fs[..i], section, sections, base),
          SectionForFileLines(Context(), seg, fs[i], section, sections, base, subgroupDepth));
        assert fs[..i + 1][..i] == fs[..i];
        i := i + 1;
      }
      assert fs[..i] == fs;
    }

    /** One resolved section of a file: the file itself, then, unless
        partial objects are referenced, every subgroup section listed under
        it (while the depth bound lasts). */
    method EmitUnit(f: FileInfo, seg: Segment, k: string, sections: seq<string>, base: Path, fuel: nat)
      modifies this
      ensures State() == Apply(old(State()), UnitLines(Context(), seg, f, k, sections, base, fuel))
      ensures Context() == old(Context()) && Tables() == old(Tables())
      decreases Size(f), fuel, 1, 0
    {
      ghost var env := Context();
      ghost var own := FileLines(env, seg, f, k, sections, base);
      EmitFile(f, seg, k, sections, base);
      if !referencePartialObjects && k in seg.sectionsSubgroups && fuel > 0 {
        ghost var more := SubgroupLines(env, seg, f, seg.sectionsSubgroups[k], sections, base, fuel - 1);
        EmitSubgroups(f, seg, seg.sectionsSubgroups[k], sections, base, fuel - 1);
        ApplyConcat(old(State()), own, more);
        assert UnitLines(env, seg, f, k, sections, base, fuel) == own + more;
      } else {
        assert UnitLines(env, seg, f, k, sections, base, fuel) == own + [];
        assert own + [] == own;
      }
    }

    /** The subgroup loop of `emit_section_for_file`. */
    method EmitSubgroups(f: FileInfo, seg: Segment, others: seq<string>, sections: seq<string>, base: Path, fuel: nat)
      modifies this
      ensures State() == Apply(old(State()), SubgroupLines(Context(), seg, f, others, sections, base, fuel))
      ensures Context() == old(Context()) && Tables() == old(Tables())
      decreases Size(f), fuel, 4, 0
    {
      var i := 0;
      while i < |others|
        invariant 0 <= i <= |others|
        invariant State() == Apply(old(State()), SubgroupLines(Context(), seg, f, others[..i], sections, base, fuel))
        invariant Context() == old(Context()) && Tables() == old(Tables())
      {
        EmitSectionForFile(f, seg, others[i], sections, base, fuel);
        ApplyConcat(old(State()), SubgroupLines(Context(), seg, f, others[..i], sections, base, fuel),
          SectionForFileLines(Context(), seg, f, others[i], sections, base, fuel));
        assert others[..i + 1][..i] == others[..i];
        i := i + 1;
      }
      assert others[..i] == others;
    }

    /** The loop over the sorted sections of `emit_section_for_file`. */
    method EmitResolved(f: FileInfo, seg: Segment, here: seq<string>, sections: seq<string>, base: Path, fuel: nat)
      modifies this
      ensures State() == Apply(old(State()), ResolvedLines(Context(), seg, f, here, sections, base, fuel))
      ensures Context() == old(Context()) && Tables() == old(Tables())
      decreases Size(f), fuel, 2, 0
    {
      var i := 0;
      while i < |here|
        invariant 0 <= i <= |here|
        invariant State() == Apply(old(State()), ResolvedLines(Context(), seg, f, here[..i], sections, base, fuel))
        invariant Context() == old(Context()) && Tables() == old(Tables())
      {
        EmitUnit(f, seg, here[i], sections, base, fuel);
        ApplyConcat(old(State()), ResolvedLines(Context(), seg, f, here[..i], sections, base, fuel),
          UnitLines(Context(), seg, f, here[i], sections, base, fuel));
        assert here[..i + 1][..i] == here[..i];
        i := i + 1;
      }
      assert here[..i] == here;
    }

    /** `emit_section_for_file`: with a redirection map, the sections to
        emit here are collected, sorted by their position in the segment's
        section list, and each emitted as a unit; without one, the section
        itself is. */
    method EmitSectionForFile(f: FileInfo, seg: Segment, section: string, sections: seq<string>, base: Path, fuel: nat)
      modifies this
      ensures State() == Apply(old(State()), SectionForFileLines(Context(), seg, f, section, sections, base, fuel))
      ensures Context() == old(Context()) && Tables() == old(Tables())
      decreases Size(f), fuel, 3, 0
    {
      ghost var env := Context();
      if f.sectionOrder != [] {
        var here := CollectHere(f.sectionOrder, section);
        var a := new string[|here|](i requires 0 <= i < |here| => here[i]);
        assert a[..] == here;
        SortInPlace(a, sections);
        var sorted := a[..];
        assert sorted == Resolve(f.sectionOrder, section, sections);
        EmitResolved(f, seg, sorted, sections, base, fuel);
        assert SectionForFileLines(env, seg, f, section, sections, base, fuel) == ResolvedLines(env, seg, f, sorted, sections, base, fuel);
      } else {
        EmitUnit(f, seg, section, sections, base, fuel);
      }
    }

    /** The unsorted list of sections a file with a redirection map
        contributes while `section` is filled. */
    static method CollectHere(order: seq<(string, string)>, section: string) returns (here: seq<string>)
      ensures here == Candidates(order, section)
    {
      here := if HasKey(order, section) then [] else [section];
      var j := 0;
      while j < |order|
        invariant 0 <= j <= |order|
        invariant here == (if HasKey(order, section) then [] else [section]) + KeysTo(order[..j], section)
      {
        assert order[..j + 1][..j] == order[..j];
        if order[j].1 == section {
          here := here + [order[j].0];
        }
        j := j + 1;
      }
      assert order[..j] == order;
    }

    /** `emit_section`: every file of the segment, under the segment's base
        path. */
    method EmitSection(seg: Segment, section: string, sections: seq<string>)
      modifies this
      ensures State() == Apply(old(State()), SectionLines(Context(), seg, section, sections))
      ensures Context() == old(Context()) && Tables() == old(Tables())
    {
      var base := settings.basePath;
      if !referencePartialObjects {
        base := push(base, seg.dir);
      }
      EmitFiles(seg.files, seg, section, sections, base, SizeAll(seg.files) + 1);
    }

    // -------------------------------------------------------------------
    // Output sections

    /** One iteration of the section loop of `write_segment`. */
    method WriteSectionBlock(seg: Segment, sections: seq<string>, i: nat, ghost s0: WriterState)
      requires i < |sections|
      requires State() == Apply(s0, SectionBlocks(Context(), seg, sections, i))
      modifies this
      ensures State() == Apply(s0, SectionBlocks(Context(), seg, sections, i + 1))
      ensures Context() == old(Context()) && Tables() == old(Tables())
    {
      var section := sections[i];
      WriteSectionSymbolStart(seg, section);
      EmitSection(seg, section, sections);
      ghost var a := SectionStartLines(Context(), seg, section);
      ghost var b := SectionLines(Context(), seg, section, sections);
      ApplyConcat(old(State()), a, b);
      WriteSectionSymbolEnd(seg, section);
      ghost var c := SectionEndLines(Context(), seg, section);
      ApplyConcat(old(State()), a + b, c);
      if i + 1 < |sections| {
        Write([Empty]);
      } else {
        Write([]);
      }
      ApplyConcat(old(State()), a + b + c, Separator(sections, i));
      ApplyConcat(s0, SectionBlocks(Context(), seg, sections, i), SectionBlock(Context(), seg, sections, i));
    }

    /** `FILL(...)` when the segment has a fill value. */
    method WriteFill(seg: Segment)
      modifies this
      ensures State() == Apply(old(State()), FillLines(seg))
      ensures Context() == old(Context()) && Tables() == old(Tables())
    {
      if seg.fillValue.Some? {
        Write([Text("FILL(0x" + Hex8(seg.fillValue.value) + ");")]);
      } else {
        Write([]);
      }
    }

    /** The section loop of `write_segment`. */
    method WriteSectionBlocks(seg: Segment, sections: seq<string>)
      modifies this
      ensures State() == Apply(old(State()), SectionBlocks(Context(), seg, sections, |sections|))
      ensures Context() == old(Context()) && Tables() == old(Tables())
    {
      ghost var env := Context();
      var i := 0;
      while i < |sections|
        invariant 0 <= i <= |sections|
        invariant State() == Apply(old(State()), SectionBlocks(env, seg, sections, i))
        invariant Context() == env && Tables() == old(Tables())
      {
        WriteSectionBlock(seg, sections, i, old(State()));
        i := i + 1;
      }
    }

    /** `write_segment`. */
    method WriteSegment(seg: Segment, sections: seq<string>, noload: bool)
      modifies this
      ensures State() == Apply(old(State()), WriteSegmentLines(Context(), seg, sections, noload))
      ensures Context() == old(Context()) && Tables() == old(Tables())
    {
      ghost var a := KindStartLines(Context(), seg, noload) + [Text(SegmentHeader(Context(), seg, noload)), BeginBlock];
      ghost var b := FillLines(seg);
      ghost var c := SectionBlocks(Context(), seg, sections, |sections|);
      ghost var d := KindEndLines(Context(), seg, noload);
      WriteSegmentStart(seg, noload);
      WriteFill(seg);
      ApplyConcat(old(State()), a, b);
      WriteSectionBlocks(seg, sections);
      ApplyConcat(old(State()), a + b, c);
      Write([EndBlock]);
      ApplyConcat(old(State()), a + b + c, [EndBlock]);
      WriteSectionsKindEnd(seg, noload);
      ApplyConcat(old(State()), a + b + c + [EndBlock], d);
    }

    /** The opening of one output section of `write_single_segment`. */
    method WriteSingleSectionStart(seg: Segment, section: string, suffix: string)
      modifies this
      ensures State() == Apply(old(State()), SingleSectionStartLines(Context(), seg, section, suffix))
      ensures Context() == old(Context()) && Tables() == old(Tables())
    {
      ghost var a := SectionStartLines(Context(), seg, section);
      WriteSectionSymbolStart(seg, section);
      var line := section + suffix + " :";
      if seg.subalign.Some? {
        line := line + (" SUBALIGN(" + Decimal(seg.subalign.value) + ")");
      } else {
        assert line + SubalignText(seg) == line;
      }
      Write([Text(line), BeginBlock]);
      ApplyConcat(old(State()), a, [Text(line), BeginBlock]);
      WriteFill(seg);
      ApplyConcat(old(State()), a + [Text(line), BeginBlock], FillLines(seg));
    }

    /** The closing of one output section of `write_single_segment`. */
    method WriteSingleSectionEnd(seg: Segment, sections: seq<string>, i: nat)
      requires i < |sections|
      modifies this
      ensures State() == Apply(old(State()), SingleSectionEndLines(Context(), seg, sections, i))
      ensures Context() == old(Context()) && Tables() == old(Tables())
    {
      ghost var c := SectionEndLines(Context(), seg, sections[i]);
      Write([EndBlock]);
      WriteSectionSymbolEnd(seg, sections[i]);
      ApplyConcat(old(State()), [EndBlock], c);
      if i + 1 < |sections| {
        Write([Empty]);
      } else {
        Write([]);
      }
      ApplyConcat(old(State()), [EndBlock] + c, Separator(sections, i));
    }

    /** One iteration of the section loop of `write_single_segment`. */
    method WriteSingleSectionBlock(seg: Segment, sections: seq<string>, suffix: string, i: nat, ghost s0: WriterState)
      requires i < |sections|
      requires State() == Apply(s0, SingleSectionBlocks(Context(), seg, sections, suffix, i))
      modifies this
      ensures State() == Apply(s0, SingleSectionBlocks(Context(), seg, sections, suffix, i + 1))
      ensures Context() == old(Context()) && Tables() == old(Tables())
    {
      ghost var env := Context();
      ghost var a := SingleSectionStartLines(env, seg, sections[i], suffix);
      ghost var b := SectionLines(env, seg, sections[i], sections);
      ghost var c := SingleSectionEndLines(env, seg, sections, i);
      WriteSingleSectionStart(seg, sections[i], suffix);
      EmitSection(seg, sections[i], sections);
      ApplyConcat(old(State()), a, b);
      WriteSingleSectionEnd(seg, sections, i);
      ApplyConcat(old(State()), a + b, c);
      assert SingleSectionBlock(env, seg, sections, suffix, i) == a + b + c;
      ApplyConcat(s0, SingleSectionBlocks(env, seg, sections, suffix, i), a + b + c);
    }

    /** The section loop of `write_single_segment`. */
    method WriteSingleSectionBlocks(seg: Segment, sections: seq<string>, suffix: string)
      modifies this
      ensures State() == Apply(old(State()), SingleSectionBlocks(Context(), seg, sections, suffix, |sections|))
      ensures Context() == old(Context()) && Tables() == old(Tables())
    {
      ghost var env := Context();
      var i := 0;
      while i < |sections|
        invariant 0 <= i <= |sections|
        invariant State() == Apply(old(State()), SingleSectionBlocks(env, seg, sections, suffix, i))
        invariant Context() == env && Tables() == old(Tables())
      {
        WriteSingleSectionBlock(seg, sections, suffix, i, old(State()));
        i := i + 1;
      }
    }

    /** `write_single_segment`. */
    method WriteSingleSegment(seg: Segment, sections: seq<string>, noload: bool)
      modifies this
      ensures State() == Apply(old(State()), WriteSingleSegmentLines(Context(), seg, sections, noload))
      ensures Context() == old(Context()) && Tables() == old(Tables())
    {
      ghost var a := KindStartLines(Context(), seg, noload);
      var suffix := if noload then " (NOLOAD)" else "";
      ghost var b := SingleSectionBlocks(Context(), seg, sections, suffix, |sections|);
      WriteSectionsKindStart(seg, noload);
      WriteSingleSectionBlocks(seg, sections, suffix);
      ApplyConcat(old(State()), a, b);
      WriteSectionsKindEnd(seg, noload);
      ApplyConcat(old(State()), a + b, KindEndLines(Context(), seg, noload));
    }

    // -------------------------------------------------------------------
    // Segments

    /** The follows loop of `add_segment`: the class start raised past the
        end of every followed class in turn. */
    method WriteClassFollows(start: string, follows: seq<string>)
      modifies this
      ensures State() == Apply(old(State()), FollowLines(Context(), start, follows))
      ensures Context() == old(Context()) && Tables() == old(Tables())
    {
      ghost var env := Context();
      ApplyNothing(State());
      var j := 0;
      while j < |follows|
        invariant 0 <= j <= |follows|
        invariant State() == Apply(old(State()), FollowLines(env, start, follows[..j]))
        invariant Context() == env && Tables() == old(Tables())
      {
        var l := MaxSelf(start, style.vramClassEnd(follows[j]));
        Write([l]);
        ApplyConcat(old(State()), FollowLines(env, start, follows[..j]), [l]);
        assert follows[..j + 1][..j] == follows[..j];
        j := j + 1;
      }
      assert follows[..j] == follows;
    }

    /** The start marker of class `name`. */
    method WriteClassStart(name: string, vc: VramClass)
      modifies this
      ensures State() == Apply(old(State()), ClassStartLines(Context(), name, vc))
      ensures Context() == old(Context()) && Tables() == old(Tables())
    {
      var start := style.vramClassStart(name);
      if vc.fixedVram.Some? {
        Write([Symbol(start, "0x" + Hex8(vc.fixedVram.value))]);
      } else if vc.fixedSymbol.Some? {
        Write([Symbol(start, vc.fixedSymbol.value)]);
      } else {
        Write([Symbol(start, "0x00000000")]);
        WriteClassFollows(start, vc.followsClasses);
        ApplyConcat(old(State()), [Symbol(start, "0x00000000")], FollowLines(Context(), start, vc.followsClasses));
      }
    }

    /** The initialisation of class `name` on its first reference. */
    method WriteClassInit(name: string, vc: VramClass)
      modifies this
      ensures State() == Apply(old(State()), ClassInitLines(Context(), name, vc))
      ensures Context() == old(Context()) && Tables() == old(Tables())
    {
      WriteClassStart(name, vc);
      var tail := [Symbol(style.vramClassEnd(name), "0x00000000"), Empty];
      Write(tail);
      ApplyConcat(old(State()), ClassStartLines(Context(), name, vc), tail);
    }

    /** The opening of a segment. */
    method WriteSegmentOpen(seg: Segment)
      modifies this
      ensures State() == Apply(old(State()), SegmentOpenLines(Context(), seg))
      ensures Context() == old(Context()) && Tables() == old(Tables())
    {
      var align := if seg.segmentStartAlign.Some? then [Align("__romPos", seg.segmentStartAlign.value), Align(".", seg.segmentStartAlign.value)] else [];
      var marks := [Symbol(style.segmentRomStart(seg.name), "__romPos"), Symbol(style.segmentVramStart(seg.name), "ADDR(." + seg.name + ")")];
      Write(align);
      Write(marks);
      ApplyConcat(old(State()), align, marks);
    }

    /** The loaded and the zero-initialised output sections of a segment. */
    method WriteSegmentSections(seg: Segment)
      modifies this
      ensures State() == Apply(old(State()), SegmentSectionsLines(Context(), seg))
      ensures Context() == old(Context()) && Tables() == old(Tables())
    {
      ghost var env := Context();
      ghost var a := WriteSegmentLines(env, seg, seg.allocSections, false);
      ghost var c := WriteSegmentLines(env, seg, seg.noloadSections, true);
      WriteSegment(seg, seg.allocSections, false);
      Write([Empty]);
      ApplyConcat(old(State()), a, [Empty]);
      WriteSegment(seg, seg.noloadSections, true);
      ApplyConcat(old(State()), a + [Empty], c);
      Write([Empty]);
      ApplyConcat(old(State()), a + [Empty] + c, [Empty]);
    }

    /** The rom counter advance and the end alignment of a segment. */
    method WriteSegmentAdvance(seg: Segment)
      modifies this
      ensures State() == Apply(old(State()), SegmentAdvanceLines(seg))
      ensures Context() == old(Context()) && Tables() == old(Tables())
    {
      Write([Text("__romPos += SIZEOF(." + seg.name + ");")]
        + (if seg.segmentEndAlign.Some? then [Align("__romPos", seg.segmentEndAlign.value), Align(".", seg.segmentEndAlign.value)] else []));
    }

    /** The vram and rom end and size markers of a segment. */
    method WriteSegmentMarkers(seg: Segment)
      modifies this
      ensures State() == Apply(old(State()), SegmentMarkerLines(Context(), seg))
      ensures Context() == old(Context()) && Tables() == old(Tables())
    {
      var n := seg.name;
      WriteSymEndSize(style.segmentVramStart(n), style.segmentVramEnd(n), style.segmentVramSize(n), ".");
      WriteSymEndSize(style.segmentRomStart(n), style.segmentRomEnd(n), style.segmentRomSize(n), "__romPos");
      ApplyConcat(old(State()), SymEndSizeLines(style.segmentVramStart(n), style.segmentVramEnd(n), style.segmentVramSize(n), "."),
                  SymEndSizeLines(style.segmentRomStart(n), style.segmentRomEnd(n), style.segmentRomSize(n), "__romPos"));
    }

    /** The closing of a segment. */
    method WriteSegmentClose(seg: Segment)
      modifies this
      ensures State() == Apply(old(State()), SegmentCloseLines(Context(), seg))
      ensures Context() == old(Context()) && Tables() == old(Tables())
    {
      ghost var env := Context();
      ghost var a := SegmentAdvanceLines(seg);
      ghost var b := SegmentMarkerLines(env, seg);
      WriteSegmentAdvance(seg);
      WriteSegmentMarkers(seg);
      ApplyConcat(old(State()), a, b);
      var raise := if seg.vramClass.Some? then [Empty, MaxSelf(style.vramClassEnd(seg.vramClass.value), style.segmentVramEnd(seg.name))] else [];
      Write(raise + [Empty]);
      ApplyConcat(old(State()), a + b, raise + [Empty]);
    }

    /** What `add_segment` writes after any class initialisation. */
    method WriteSegmentBody(seg: Segment)
      modifies this
      ensures State() == Apply(old(State()), SegmentBodyLines(Context(), seg))
      ensures Context() == old(Context()) && Tables() == old(Tables())
    {
      ghost var env := Context();
      ghost var a := SegmentOpenLines(env, seg);
      ghost var b := SegmentSectionsLines(env, seg);
      WriteSegmentOpen(seg);
      WriteSegmentSections(seg);
      ApplyConcat(old(State()), a, b);
      WriteSegmentClose(seg);
      ApplyConcat(old(State()), a + b, SegmentCloseLines(env, seg));
    }

    /** The class part of `add_segment`: a class not yet emitted is
        initialised and marked emitted; an emitted one is left alone. */
    method InitClassOnFirstUse(c: string)
      requires c in vramClasses
      modifies this
      ensures var vc := old(vramClasses)[c];
        && State() == Apply(old(State()), if vc.emitted then [] else ClassInitLines(Context(), c, vc))
        && vramClasses == if vc.emitted then old(vramClasses) else old(vramClasses)[c := vc.(emitted := true)]
      ensures Context() == old(Context()) && classNames == old(classNames) && singleSegment == old(singleSegment)
    {
      var vc := vramClasses[c];
      if !vc.emitted {
        WriteClassInit(c, vc);
        vramClasses := vramClasses[c := vc.(emitted := true)];
      } else {
        ApplyNothing(State());
      }
    }

    /** The emitting part of `add_segment`, for a segment the runtime
        conditions admit and whose class, if any, is known. */
    method EmitSegment(seg: Segment)
      requires shouldEmit(seg.conditions) && (seg.vramClass.Some? ==> seg.vramClass.value in vramClasses)
      modifies this
      ensures var o := AddSegmentSpec(old(Context()), old(vramClasses), seg);
        State() == Apply(old(State()), o.lines) && vramClasses == o.classes && o.error.None?
      ensures Context() == old(Context()) && classNames == old(classNames) && singleSegment == old(singleSegment)
    {
      ghost var env := Context();
      ghost var classes := vramClasses;
      ghost var o := AddSegmentSpec(env, classes, seg);
      ghost var init: seq<Line> := [];
      if seg.vramClass.Some? {
        var c := seg.vramClass.value;
        init := if classes[c].emitted then [] else ClassInitLines(env, c, classes[c]);
        InitClassOnFirstUse(c);
        assert o.lines == init + SegmentBodyLines(env, seg) && o.classes == vramClasses && o.error.None?;
      } else {
        ApplyNothing(State());
        assert o.lines == init + SegmentBodyLines(env, seg) && o.classes == vramClasses && o.error.None?;
      }
      WriteSegmentBody(seg);
      ApplyConcat(old(State()), init, SegmentBodyLines(env, seg));
    }

    /** `add_segment`: nothing for a segment the runtime conditions exclude;
        an error, and nothing written, for a segment of an unknown class;
        otherwise the class's initialisation on its first reference, then
        the segment. */
    method AddSegment(seg: Segment) returns (result: Outcome)
      requires Valid()
      requires shouldEmit(seg.conditions) ==> !singleSegment
      modifies this
      ensures var o := AddSegmentSpec(old(Context()), old(vramClasses), seg);
        State() == Apply(old(State()), o.lines) && vramClasses == o.classes && result == OutcomeOf(o.error)
      ensures Context() == old(Context()) && classNames == old(classNames) && singleSegment == old(singleSegment)
      ensures Valid()
    {
      if !shouldEmit(seg.conditions) {
        ApplyNothing(State());
        return Pass;
      }
      if seg.vramClass.Some? && seg.vramClass.value !in vramClasses {
        ApplyNothing(State());
        return Fail(MissingVramClassForSegment(seg.name, seg.vramClass.value));
      }
      EmitSegment(seg);
      ApplyKeepsConsistent(old(State()), AddSegmentSpec(old(Context()), old(vramClasses), seg).lines);
      return Pass;
    }

    // -------------------------------------------------------------------
    // The placement block

    /** `begin_sections`. */
    method BeginSections()
      modifies this
      ensures State() == Apply(old(State()), BeginSectionsLines(Context()))
      ensures Context() == old(Context()) && Tables() == old(Tables())
    {
      var a := [Text("SECTIONS"), BeginBlock, Text("__romPos = 0x0;")];
      var gp := if settings.hardcodedGpValue.Some? then [Text("_gp = 0x" + Hex8(settings.hardcodedGpValue.value) + ";")] else [];
      Write(a);
      Write(gp);
      ApplyConcat(old(State()), a, gp);
      Write([Empty]);
      ApplyConcat(old(State()), a + gp, [Empty]);
    }

    /** One iteration of the size-marker loop of `end_sections`; the result
        says whether a marker was written. */
    method WriteClassSize(i: nat, ghost s0: WriterState) returns (wrote: bool)
      requires i < |classNames|
      requires State() == Apply(s0, ClassSizeLines(Context(), classNames[..i], vramClasses))
      modifies this
      ensures Context() == old(Context()) && Tables() == old(Tables())
      ensures State() == Apply(s0, ClassSizeLines(Context(), classNames[..i + 1], vramClasses))
      ensures ClassSizeLines(Context(), classNames[..i + 1], vramClasses) != [] <==>
        ClassSizeLines(Context(), classNames[..i], vramClasses) != [] || wrote
    {
      ghost var env := Context();
      var n := classNames[i];
      ghost var done := ClassSizeLines(env, classNames[..i], vramClasses);
      assert classNames[..i + 1][..i] == classNames[..i];
      if n in vramClasses && vramClasses[n].emitted {
        var l := Symbol(style.vramClassSize(n), style.vramClassEnd(n) + " - " + style.vramClassStart(n));
        Write([l]);
        ApplyConcat(s0, done, [l]);
        assert ClassSizeLines(env, classNames[..i + 1], vramClasses) == done + [l];
        wrote := true;
      } else {
        assert ClassSizeLines(env, classNames[..i + 1], vramClasses) == done + [];
        assert done + [] == done;
        wrote := false;
      }
    }

    /** The size-marker loop of `end_sections`; the result says whether any
        marker was written. */
    method WriteClassSizes() returns (any: bool)
      modifies this
      ensures State() == Apply(old(State()), ClassSizeLines(Context(), classNames, vramClasses))
      ensures any == (ClassSizeLines(Context(), classNames, vramClasses) != [])
      ensures Context() == old(Context()) && Tables() == old(Tables())
    {
      ghost var env := Context();
      ApplyNothing(State());
      any := false;
      var i := 0;
      while i < |classNames|
        invariant 0 <= i <= |classNames|
        invariant State() == Apply(old(State()), ClassSizeLines(env, classNames[..i], vramClasses))
        invariant any == (ClassSizeLines(env, classNames[..i], vramClasses) != [])
        invariant Context() == env && Tables() == old(Tables())
      {
        var wrote := WriteClassSize(i, old(State()));
        any := any || wrote;
        i := i + 1;
      }
      assert classNames[..i] == classNames;
    }

    /** A placeholder output section per listed section. */
    method WriteSingleEntries(sects: seq<string>)
      modifies this
      ensures State() == Apply(old(State()), SingleEntryLines(sects))
      ensures Context() == old(Context()) && Tables() == old(Tables())
    {
      ApplyNothing(State());
      var i := 0;
      while i < |sects|
        invariant 0 <= i <= |sects|
        invariant State() == Apply(old(State()), SingleEntryLines(sects[..i]))
        invariant Context() == old(Context()) && Tables() == old(Tables())
      {
        var l := SingleEntrySection(sects[i], "0");
        Write([l]);
        ApplyConcat(old(State()), SingleEntryLines(sects[..i]), [l]);
        assert sects[..i + 1][..i] == sects[..i];
        i := i + 1;
      }
      assert sects[..i] == sects;
    }

    /** A discard selector per denied section. */
    method WriteDenies(sects: seq<string>)
      modifies this
      ensures State() == Apply(old(State()), DenyLines(sects))
      ensures Context() == old(Context()) && Tables() == old(Tables())
    {
      ApplyNothing(State());
      var i := 0;
      while i < |sects|
        invariant 0 <= i <= |sects|
        invariant State() == Apply(old(State()), DenyLines(sects[..i]))
        invariant Context() == old(Context()) && Tables() == old(Tables())
      {
        var l := Text("*(" + sects[i] + ");");
        Write([l]);
        ApplyConcat(old(State()), DenyLines(sects[..i]), [l]);
        assert sects[..i + 1][..i] == sects[..i];
        i := i + 1;
      }
      assert sects[..i] == sects;
    }

    /** One group of placeholder sections of `end_sections`. */
    method WriteEntryGroup(needLn: bool, sects: seq<string>)
      modifies this
      ensures State() == Apply(old(State()), EntryGroupLines(needLn, sects))
      ensures Context() == old(Context()) && Tables() == old(Tables())
    {
      if sects == [] {
        ApplyNothing(State());
        return;
      }
      var sep := if needLn then [Empty] else [];
      Write(sep);
      WriteSingleEntries(sects);
      ApplyConcat(old(State()), sep, SingleEntryLines(sects));
    }

    /** The discard section of `end_sections`. */
    method WriteDiscard(needLn: bool)
      modifies this
      ensures State() == Apply(old(State()), DiscardLines(settings, needLn))
      ensures Context() == old(Context()) && Tables() == old(Tables())
    {
      if !(settings.discardWildcardSection || settings.sectionsDenylist != []) {
        ApplyNothing(State());
        return;
      }
      var a := (if needLn then [Empty] else []) + [Text("/DISCARD/ :"), BeginBlock];
      Write(a);
      WriteDenies(settings.sectionsDenylist);
      ghost var b := DenyLines(settings.sectionsDenylist);
      ApplyConcat(old(State()), a, b);
      var c := (if settings.discardWildcardSection then [Text("*(*);")] else []) + [EndBlock];
      Write(c);
      ApplyConcat(old(State()), a + b, c);
    }

    /** The two groups of placeholder sections of `end_sections`. */
    method WriteAllowGroups(needLn: bool)
      modifies this
      ensures State() == Apply(old(State()), AllowLines(settings, needLn))
      ensures Context() == old(Context()) && Tables() == old(Tables())
    {
      ghost var a := EntryGroupLines(needLn, settings.sectionsAllowlist);
      WriteEntryGroup(needLn, settings.sectionsAllowlist);
      var need := needLn || settings.sectionsAllowlist != [];
      WriteEntryGroup(need, settings.sectionsAllowlistExtra);
      ApplyConcat(old(State()), a, EntryGroupLines(need, settings.sectionsAllowlistExtra));
    }

    /** `end_sections`. */
    method EndSections()
      modifies this
      ensures State() == Apply(old(State()), EndSectionsLines(Context(), classNames, vramClasses))
      ensures Context() == old(Context()) && Tables() == old(Tables())
    {
      ghost var env := Context();
      var needLn := WriteClassSizes();
      ghost var a := ClassSizeLines(env, classNames, vramClasses);
      ghost var b := AllowLines(settings, needLn);
      WriteAllowGroups(needLn);
      ApplyConcat(old(State()), a, b);
      needLn := needLn || settings.sectionsAllowlist != [] || settings.sectionsAllowlistExtra != [];
      ghost var d := DiscardLines(settings, needLn);
      WriteDiscard(needLn);
      ApplyConcat(old(State()), a + b, d);
      Write([EndBlock]);
      ApplyConcat(old(State()), a + b + d, [EndBlock]);
    }

    // -------------------------------------------------------------------
    // Single-segment mode

    /** The loaded and the zero-initialised sections of `add_single_segment`,
        each followed by a blank line. */
    method WriteSingleSections(seg: Segment)
      modifies this
      ensures State() == Apply(old(State()), SingleSectionsLines(Context(), seg))
      ensures Context() == old(Context()) && Tables() == old(Tables())
    {
      ghost var env := Context();
      ghost var a := WriteSingleSegmentLines(env, seg, seg.allocSections, false);
      ghost var c := WriteSingleSegmentLines(env, seg, seg.noloadSections, true);
      WriteSingleSegment(seg, seg.allocSections, false);
      Write([Empty]);
      ApplyConcat(old(State()), a, [Empty]);
      WriteSingleSegment(seg, seg.noloadSections, true);
      ApplyConcat(old(State()), a + [Empty], c);
      Write([Empty]);
      ApplyConcat(old(State()), a + [Empty] + c, [Empty]);
    }

    /** The opening of the placement block in single-segment mode. */
    method WriteSingleOpen(seg: Segment)
      modifies this
      ensures State() == Apply(old(State()), SingleOpenLines(seg))
      ensures Context() == old(Context()) && Tables() == old(Tables())
    {
      var a := [Text("SECTIONS"), BeginBlock];
      var b := if seg.fixedVram.Some? then [Text(". = 0x" + Hex8(seg.fixedVram.value) + ";"), Empty] else [];
      Write(a);
      Write(b);
      ApplyConcat(old(State()), a, b);
    }

    /** `add_single_segment`: allowed once; the whole placement block for the
        one segment, each of its sections an output section of its own. */
    method AddSingleSegment(seg: Segment)
      requires Valid() && !singleSegment
      modifies this
      ensures State() == Apply(old(State()), AddSingleSegmentLines(old(Context()), old(classNames), old(vramClasses), seg))
      ensures singleSegment
      ensures Context() == old(Context()) && classNames == old(classNames) && vramClasses == old(vramClasses)
      ensures Valid()
    {
      ghost var env := Context();
      singleSegment := true;
      ghost var tables := Tables();
      ghost var open := SingleOpenLines(seg);
      WriteSingleOpen(seg);
      WriteSingleSections(seg);
      ApplyConcat(old(State()), open, SingleSectionsLines(env, seg));
      EndSections();
      ApplyConcat(old(State()), open + SingleSectionsLines(env, seg), EndSectionsLines(env, classNames, vramClasses));
      ApplyKeepsConsistent(old(State()), AddSingleSegmentLines(env, classNames, vramClasses, seg));
      assert Tables() == tables;
    }

    // -------------------------------------------------------------------
    // The segment list

    /** One iteration of the segment loop: the run so far, extended by
        segment `i`. */
    method AddSegmentStep(segs: seq<Segment>, i: nat, ghost s0: WriterState, ghost classes0: map<string, VramClass>)
      returns (result: Outcome)
      requires i < |segs| && Valid()
      requires singleSegment ==> !shouldEmit(segs[i].conditions)
      requires var p := AddSegmentsSpec(Context(), classes0, segs[..i]);
        p.error.None? && State() == Apply(s0, p.lines) && vramClasses == p.classes
      modifies this
      ensures Context() == old(Context()) && classNames == old(classNames) && singleSegment == old(singleSegment)
      ensures var p := AddSegmentsSpec(Context(), classes0, segs[..i + 1]);
        State() == Apply(s0, p.lines) && vramClasses == p.classes && result == OutcomeOf(p.error)
      ensures Valid()
    {
      ghost var env := Context();
      ghost var p := AddSegmentsSpec(env, classes0, segs[..i]);
      assert segs[..i + 1][..i] == segs[..i];
      result := AddSegment(segs[i]);
      ApplyConcat(s0, p.lines, AddSegmentSpec(env, p.classes, segs[i]).lines);
    }

    /** The segment loop of `add_all_segments`: each segment in turn, and the
        first error ends the loop. */
    method AddSegments(segs: seq<Segment>) returns (result: Outcome)
      requires Valid()
      requires singleSegment ==> forall i :: 0 <= i < |segs| ==> !shouldEmit(segs[i].conditions)
      modifies this
      ensures var o := AddSegmentsSpec(old(Context()), old(vramClasses), segs);
        State() == Apply(old(State()), o.lines) && vramClasses == o.classes && result == OutcomeOf(o.error)
      ensures Context() == old(Context()) && classNames == old(classNames) && singleSegment == old(singleSegment)
      ensures Valid()
    {
      ghost var env := Context();
      ghost var classes0 := vramClasses;
      ApplyNothing(State());
      var i := 0;
      while i < |segs|
        invariant 0 <= i <= |segs|
        invariant Context() == env && classNames == old(classNames) && singleSegment == old(singleSegment)
        invariant AddSegmentsSpec(env, classes0, segs[..i]).error.None?
        invariant State() == Apply(old(State()), AddSegmentsSpec(env, classes0, segs[..i]).lines)
        invariant vramClasses == AddSegmentsSpec(env, classes0, segs[..i]).classes
        invariant Valid()
      {
        var r := AddSegmentStep(segs, i, old(State()), classes0);
        if r.Fail? {
          ErrorIsFinal(env, classes0, segs, i + 1);
          assert AddSegmentsSpec(env, classes0, segs) == AddSegmentsSpec(env, classes0, segs[..i + 1]);
          return r;
        }
        i := i + 1;
      }
      assert segs[..i] == segs;
      return Pass;
    }

    /** `add_all_segments`: in single-segment mode the one segment; otherwise
        the placement block, each segment, and the closing lines unless a
        segment failed. */
    method AddAllSegments(segs: seq<Segment>) returns (result: Outcome)
      requires Valid()
      requires settings.singleSegmentMode ==> |segs| == 1 && !singleSegment
      requires !settings.singleSegmentMode && singleSegment ==> forall i :: 0 <= i < |segs| ==> !shouldEmit(segs[i].conditions)
      modifies this
      ensures var o := AddAllSegmentsSpec(old(Context()), old(classNames), old(vramClasses), segs);
        State() == Apply(old(State()), o.lines) && vramClasses == o.classes && result == OutcomeOf(o.error)
      ensures singleSegment == (old(singleSegment) || settings.singleSegmentMode)
      ensures Context() == old(Context()) && classNames == old(classNames)
      ensures Valid()
    {
      ghost var env := Context();
      if settings.singleSegmentMode {
        AddSingleSegment(segs[0]);
        return Pass;
      }
      BeginSections();
      ghost var a := BeginSectionsLines(env);
      ApplyKeepsConsistent(old(State()), a);
      result := AddSegments(segs);
      ghost var o := AddSegmentsSpec(env, old(vramClasses), segs);
      ApplyConcat(old(State()), a, o.lines);
      if result.Fail? {
        ApplyKeepsConsistent(old(State()), a + o.lines);
        return;
      }
      EndSections();
      ApplyConcat(old(State()), a + o.lines, EndSectionsLines(env, classNames, vramClasses));
      ApplyKeepsConsistent(old(State()), a + o.lines + EndSectionsLines(env, classNames, vramClasses));
    }

    // -------------------------------------------------------------------
    // Directives

    /** `begin_symbol_assignments`, `begin_required_symbols` and
        `begin_asserts`: a blank line unless nothing was written yet. */
    method BeginDirectiveGroup()
      modifies this
      ensures State() == Apply(old(State()), GroupSeparator(old(lines)))
      ensures Context() == old(Context()) && Tables() == old(Tables())
    {
      if lines != [] {
        Write([Empty]);
      } else {
        ApplyNothing(State());
      }
    }

    /** `add_entry`. */
    method AddEntry(entry: string)
      requires Valid()
      modifies this
      ensures State() == Apply(old(State()), EntryLines(old(lines), entry))
      ensures Context() == old(Context()) && Tables() == old(Tables())
      ensures Valid()
    {
      ghost var sep := GroupSeparator(lines);
      BeginDirectiveGroup();
      var l := Text("ENTRY(" + entry + ");");
      Write([l]);
      ApplyConcat(old(State()), sep, [l]);
      ApplyKeepsConsistent(old(State()), sep + [l]);
    }

    /** `add_symbol_assignment`: written only if the runtime conditions admit it. */
    method AddSymbolAssignment(x: SymbolAssignment)
      modifies this
      ensures State() == Apply(old(State()), if shouldEmit(x.conditions) then [Assignment(x.name, x.value, x.provide, x.hidden)] else [])
      ensures Context() == old(Context()) && Tables() == old(Tables())
    {
      if shouldEmit(x.conditions) {
        Write([Assignment(x.name, x.value, x.provide, x.hidden)]);
      } else {
        ApplyNothing(State());
      }
    }

    /** `add_required_symbol`: written only if the runtime conditions admit it. */
    method AddRequiredSymbol(x: RequiredSymbol)
      modifies this
      ensures State() == Apply(old(State()), if shouldEmit(x.conditions) then [Required(x.name)] else [])
      ensures Context() == old(Context()) && Tables() == old(Tables())
    {
      if shouldEmit(x.conditions) {
        Write([Required(x.name)]);
      } else {
        ApplyNothing(State());
      }
    }

    /** `add_assert`: written only if the runtime conditions admit it. */
    method AddAssert(x: AssertEntry)
      modifies this
      ensures State() == Apply(old(State()), if shouldEmit(x.conditions) then [Assert(x.check, x.errorMessage)] else [])
      ensures Context() == old(Context()) && Tables() == old(Tables())
    {
      if shouldEmit(x.conditions) {
        Write([Assert(x.check, x.errorMessage)]);
      } else {
        ApplyNothing(State());
      }
    }

    /** One iteration of the symbol assignment loop. */
    method WriteAssignmentsStep(xs: seq<SymbolAssignment>, i: nat, ghost s0: WriterState)
      requires i < |xs|
      requires State() == Apply(s0, AssignmentLines(Context(), xs[..i]))
      modifies this
      ensures Context() == old(Context()) && Tables() == old(Tables())
      ensures State() == Apply(s0, AssignmentLines(Context(), xs[..i + 1]))
    {
      ghost var done := AssignmentLines(Context(), xs[..i]);
      ghost var step := if shouldEmit(xs[i].conditions) then [Assignment(xs[i].name, xs[i].value, xs[i].provide, xs[i].hidden)] else [];
      assert xs[..i + 1][..i] == xs[..i];
      AddSymbolAssignment(xs[i]);
      ApplyConcat(s0, done, step);
    }

    /** The loop of `add_all_symbol_assignments`. */
    method WriteAssignments(xs: seq<SymbolAssignment>)
      modifies this
      ensures State() == Apply(old(State()), AssignmentLines(Context(), xs))
      ensures Context() == old(Context()) && Tables() == old(Tables())
    {
      ghost var env := Context();
      ApplyNothing(State());
      var i := 0;
      while i < |xs|
        invariant 0 <= i <= |xs|
        invariant State() == Apply(old(State()), AssignmentLines(env, xs[..i]))
        invariant Context() == env && Tables() == old(Tables())
      {
        WriteAssignmentsStep(xs, i, old(State()));
        i := i + 1;
      }
      assert xs[..i] == xs;
    }

    /** One iteration of the required symbol loop. */
    method WriteRequiredStep(xs: seq<RequiredSymbol>, i: nat, ghost s0: WriterState)
      requires i < |xs|
      requires State() == Apply(s0, RequiredLines(Context(), xs[..i]))
      modifies this
      ensures Context() == old(Context()) && Tables() == old(Tables())
      ensures State() == Apply(s0, RequiredLines(Context(), xs[..i + 1]))
    {
      ghost var done := RequiredLines(Context(), xs[..i]);
      ghost var step := if shouldEmit(xs[i].conditions) then [Required(xs[i].name)] else [];
      assert xs[..i + 1][..i] == xs[..i];
      AddRequiredSymbol(xs[i]);
      ApplyConcat(s0, done, step);
    }

    /** The loop of `add_all_required_symbols`. */
    method WriteRequired(xs: seq<RequiredSymbol>)
      modifies this
      ensures State() == Apply(old(State()), RequiredLines(Context(), xs))
      ensures Context() == old(Context()) && Tables() == old(Tables())
    {
      ghost var env := Context();
      ApplyNothing(State());
      var i := 0;
      while i < |xs|
        invariant 0 <= i <= |xs|
        invariant State() == Apply(old(State()), RequiredLines(env, xs[..i]))
        invariant Context() == env && Tables() == old(Tables())
      {
        WriteRequiredStep(xs, i, old(State()));
        i := i + 1;
      }
      assert xs[..i] == xs;
    }

    /** One iteration of the assertion loop. */
    method WriteAssertsStep(xs: seq<AssertEntry>, i: nat, ghost s0: WriterState)
      requires i < |xs|
      requires State() == Apply(s0, AssertLines(Context(), xs[..i]))
      modifies this
      ensures Context() == old(Context()) && Tables() == old(Tables())
      ensures State() == Apply(s0, AssertLines(Context(), xs[..i + 1]))
    {
      ghost var done := AssertLines(Context(), xs[..i]);
      ghost var step := if shouldEmit(xs[i].conditions) then [Assert(xs[i].check, xs[i].errorMessage)] else [];
      assert xs[..i + 1][..i] == xs[..i];
      AddAssert(xs[i]);
      ApplyConcat(s0, done, step);
    }

    /** The loop of `add_all_asserts`. */
    method WriteAsserts(xs: seq<AssertEntry>)
      modifies this
      ensures State() == Apply(old(State()), AssertLines(Context(), xs))
      ensures Context() == old(Context()) && Tables() == old(Tables())
    {
      ghost var env := Context();
      ApplyNothing(State());
      var i := 0;
      while i < |xs|
        invariant 0 <= i <= |xs|
        invariant State() == Apply(old(State()), AssertLines(env, xs[..i]))
        invariant Context() == env && Tables() == old(Tables())
      {
        WriteAssertsStep(xs, i, old(State()));
        i := i + 1;
      }
      assert xs[..i] == xs;
    }

    /** `add_all_symbol_assignments`: nothing for an empty list; otherwise a
        separator and every admitted assignment in order. */
    method AddAllSymbolAssignments(xs: seq<SymbolAssignment>)
      requires Valid()
      modifies this
      ensures State() == Apply(old(State()), DirectiveGroupLines(old(lines), xs != [], AssignmentLines(Context(), xs)))
      ensures Context() == old(Context()) && Tables() == old(Tables())
      ensures Valid()
    {
      if xs == [] {
        ApplyNothing(State());
        return;
      }
      ghost var sep := GroupSeparator(lines);
      BeginDirectiveGroup();
      WriteAssignments(xs);
      ApplyConcat(old(State()), sep, AssignmentLines(Context(), xs));
      ApplyKeepsConsistent(old(State()), sep + AssignmentLines(Context(), xs));
    }

    /** `add_all_required_symbols`. */
    method AddAllRequiredSymbols(xs: seq<RequiredSymbol>)
      requires Valid()
      modifies this
      ensures State() == Apply(old(State()), DirectiveGroupLines(old(lines), xs != [], RequiredLines(Context(), xs)))
      ensures Context() == old(Context()) && Tables() == old(Tables())
      ensures Valid()
    {
      if xs == [] {
        ApplyNothing(State());
        return;
      }
      ghost var sep := GroupSeparator(lines);
      BeginDirectiveGroup();
      WriteRequired(xs);
      ApplyConcat(old(State()), sep, RequiredLines(Context(), xs));
      ApplyKeepsConsistent(old(State()), sep + RequiredLines(Context(), xs));
    }

    /** `add_all_asserts`. */
    method AddAllAsserts(xs: seq<AssertEntry>)
      requires Valid()
      modifies this
      ensures State() == Apply(old(State()), DirectiveGroupLines(old(lines), xs != [], AssertLines(Context(), xs)))
      ensures Context() == old(Context()) && Tables() == old(Tables())
      ensures Valid()
    {
      if xs == [] {
        ApplyNothing(State());
        return;
      }
      ghost var sep := GroupSeparator(lines);
      BeginDirectiveGroup();
      WriteAsserts(xs);
      ApplyConcat(old(State()), sep, AssertLines(Context(), xs));
      ApplyKeepsConsistent(old(State()), sep + AssertLines(Context(), xs));
    }

    // -------------------------------------------------------------------
    // Side files

    /** `export_dependencies_file`, without the version banner: the pieces
        written, in order. Every input a selector of the script names has
        its rule. */
    method ExportDependenciesFile(target: string) returns (chunks: seq<string>)
      ensures chunks == DependencyChunks(target, filesPaths)
      ensures Valid() ==> forall i :: 0 <= i < |lines| && lines[i].InputSection? ==> lines[i].path + ":\n" in chunks
    {
      chunks := [target + ":"];
      var i := 0;
      while i < |filesPaths|
        invariant 0 <= i <= |filesPaths|
        invariant chunks == [target + ":"] + PrereqChunks(filesPaths[..i])
      {
        assert filesPaths[..i + 1][..i] == filesPaths[..i];
        chunks := chunks + [" \\\n    " + filesPaths[i]];
        i := i + 1;
      }
      assert filesPaths[..i] == filesPaths;
      chunks := chunks + ["\n\n"];
      ghost var head := chunks;
      var j := 0;
      while j < |filesPaths|
        invariant 0 <= j <= |filesPaths|
        invariant chunks == head + RuleChunks(filesPaths[..j])
      {
        assert filesPaths[..j + 1][..j] == filesPaths[..j];
        chunks := chunks + [filesPaths[j] + ":\n"];
        j := j + 1;
      }
      assert filesPaths[..j] == filesPaths;
      if Valid() {
        RulesCoverInputs(State(), target);
      }
    }

    /** `export_symbol_header`, without the version banner: the pieces
        written, in order. Every address marker of the script is declared. */
    method ExportSymbolHeader() returns (chunks: seq<string>)
      ensures chunks == HeaderChunks(settings.symbolsHeaderType, settings.symbolsHeaderAsArray, symbols)
      ensures Valid() ==> forall i :: 0 <= i < |lines| && lines[i].Symbol? ==>
        "extern " + settings.symbolsHeaderType + " " + lines[i].name + ArraySuffix(settings.symbolsHeaderAsArray) + ";\n" in chunks
    {
      var ty := settings.symbolsHeaderType;
      var suffix := if settings.symbolsHeaderAsArray then "[]" else "";
      chunks := [HeaderGuard];
      var i := 0;
      while i < |symbols|
        invariant 0 <= i <= |symbols|
        invariant chunks == [HeaderGuard] + ExternChunks(ty, symbols[..i], suffix)
      {
        assert symbols[..i + 1][..i] == symbols[..i];
        chunks := chunks + ["extern " + ty + " " + symbols[i] + suffix + ";\n"];
        i := i + 1;
      }
      assert symbols[..i] == symbols;
      chunks := chunks + [HeaderEnd];
      if Valid() {
        ExternsCoverMarkers(State(), ty, settings.symbolsHeaderAsArray);
      }
    }
  }
}
