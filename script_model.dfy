/**
 * The data the emission engine reads (the validated document), the
 * collaborators it calls but whose code is not part of this model, and the
 * state it accumulates: the script's lines, the registry of symbols written
 * as address markers, and the referenced input paths.
 */
module ScriptModel {
  import opened Errors
  import opened Seqs

  /** An escaped path, by its text. */
  type Path = string

  /** The emitter's file kinds: the validator's four plus `Group`. */
  datatype FileKind = Object | Archive | Pad | LinkerOffset | Group

  /** Whether selectors of a file are wrapped in `KEEP(...)`. */
  datatype KeepSections = KeepAbsent | KeepAll(all: bool) | KeepWhichOnes(whichOnes: seq<string>)

  /** The four tag lists every schedulable directive carries. */
  datatype Conditions = Conditions(
    excludeIfAny: seq<string>,
    excludeIfAll: seq<string>,
    includeIfAny: seq<string>,
    includeIfAll: seq<string>)

  /** A file descriptor as the emitter reads it. `sectionOrder` is the
      redirection map (source section to destination section), listed in the
      order the map is iterated. */
  datatype FileInfo = FileInfo(
    path: Path,
    kind: FileKind,
    subfile: string,
    padAmount: nat,
    section: string,
    linkerOffsetName: string,
    sectionOrder: seq<(string, string)>,
    keepSections: KeepSections,
    files: seq<FileInfo>,       // the members of a group
    dir: Path,                  // the directory of a group
    conditions: Conditions)

  datatype GpInfo = GpInfo(section: string, offset: nat, provide: bool, hidden: bool, conditions: Conditions)

  datatype Segment = Segment(
    name: string,
    fixedVram: Option<nat>,
    fixedSymbol: Option<string>,
    followsSegment: Option<string>,
    vramClass: Option<string>,
    segmentStartAlign: Option<nat>,
    segmentEndAlign: Option<nat>,
    sectionStartAlign: Option<nat>,
    sectionEndAlign: Option<nat>,
    sectionsStartAlignment: map<string, nat>,
    sectionsEndAlignment: map<string, nat>,
    subalign: Option<nat>,
    fillValue: Option<nat>,
    wildcardSections: bool,
    allocSections: seq<string>,
    noloadSections: seq<string>,
    sectionsSubgroups: map<string, seq<string>>,
    gpInfo: Option<GpInfo>,
    files: seq<FileInfo>,
    dir: Path,
    conditions: Conditions)

  /** An address class; `emitted` records whether its start and end symbols
      have been written. */
  datatype VramClass = VramClass(
    name: string,
    fixedVram: Option<nat>,
    fixedSymbol: Option<string>,
    followsClasses: seq<string>,
    emitted: bool)

  datatype SymbolAssignment = SymbolAssignment(name: string, value: string, provide: bool, hidden: bool, conditions: Conditions)
  datatype RequiredSymbol = RequiredSymbol(name: string, conditions: Conditions)
  datatype AssertEntry = AssertEntry(check: string, errorMessage: string, conditions: Conditions)

  datatype Settings = Settings(
    basePath: Path,
    hardcodedGpValue: Option<nat>,
    sectionsAllowlist: seq<string>,
    sectionsAllowlistExtra: seq<string>,
    sectionsDenylist: seq<string>,
    discardWildcardSection: bool,
    singleSegmentMode: bool,
    symbolsHeaderType: string,
    symbolsHeaderAsArray: bool)

  /** The symbol naming style: each name is whatever the configured style
      makes of its arguments. */
  datatype SymbolsStyle = SymbolsStyle(
    segmentRomStart: string -> string,
    segmentRomEnd: string -> string,
    segmentRomSize: string -> string,
    segmentVramStart: string -> string,
    segmentVramEnd: string -> string,
    segmentVramSize: string -> string,
    segmentSectionStart: (string, string) -> string,
    segmentSectionEnd: (string, string) -> string,
    segmentSectionSize: (string, string) -> string,
    vramClassStart: string -> string,
    vramClassEnd: string -> string,
    vramClassSize: string -> string,
    linkerOffset: string -> string)

  /** Everything emission reads but never changes. `shouldEmit` is the
      runtime tag filter, `push` extends a base path by a relative one, and
      `subgroupDepth` bounds how deep subgroup sections are inlined. */
  datatype Env = Env(
    settings: Settings,
    style: SymbolsStyle,
    shouldEmit: Conditions -> bool,
    push: (Path, Path) -> Path,
    referencePartialObjects: bool,
    sectionsKindSymbols: bool,
    sectionSymbols: bool,
    subgroupDepth: nat)

  /** One line of the script buffer. The buffer's own primitives (block
      indentation, symbol, alignment and directive lines) are kept as what
      was asked of it; lines the writer formats itself are `Text`, except
      input-section selectors, which keep their parts. */
  datatype Line =
    | Text(text: string)
    | Empty
    | BeginBlock
    | EndBlock
    | Symbol(name: string, value: string)          // an address marker; registers `name`
    | MaxSelf(name: string, value: string)         // raise `name` to at least `value`
    | Align(name: string, align: nat)
    | SingleEntrySection(section: string, value: string)
    | Assignment(name: string, value: string, provide: bool, hidden: bool)
    | Required(name: string)
    | Assert(check: string, message: string)
    | InputSection(keep: bool, path: Path, member: Option<string>, section: string, wildcard: bool)

  /** The writer's accumulated output. */
  datatype WriterState = WriterState(lines: seq<Line>, symbols: seq<string>, filesPaths: seq<Path>)

  /** The names of the address markers among `lines`, in order. */
  function SymbolNames(lines: seq<Line>): seq<string> {
    if lines == [] then []
    else SymbolNames(lines[..|lines| - 1]) + (if lines[|lines| - 1].Symbol? then [lines[|lines| - 1].name] else [])
  }

  /** The paths of the input-section selectors among `lines`, in order. */
  function InputPaths(lines: seq<Line>): seq<Path> {
    if lines == [] then []
    else InputPaths(lines[..|lines| - 1]) + (if lines[|lines| - 1].InputSection? then [lines[|lines| - 1].path] else [])
  }

  /** Writing `lines`: they are appended, every address marker's name is
      registered once, and every selector's path is recorded once. */
  function Apply(s: WriterState, lines: seq<Line>): WriterState {
    WriterState(s.lines + lines, AddAll(s.symbols, SymbolNames(lines)), AddAll(s.filesPaths, InputPaths(lines)))
  }

  /** The registry and the path set are exactly what the lines written so far
      determine. */
  predicate Consistent(s: WriterState) {
    s.symbols == AddAll([], SymbolNames(s.lines)) && s.filesPaths == AddAll([], InputPaths(s.lines))
  }

  const Initial := WriterState([], [], [])

  lemma {:induction false} SymbolNamesConcat(a: seq<Line>, b: seq<Line>)
    ensures SymbolNames(a + b) == SymbolNames(a) + SymbolNames(b)
    decreases |b|
  {
    if b == [] {
      assert a + b == a;
    } else {
      assert (a + b)[..|a + b| - 1] == a + b[..|b| - 1];
      SymbolNamesConcat(a, b[..|b| - 1]);
    }
  }

  lemma {:induction false} InputPathsConcat(a: seq<Line>, b: seq<Line>)
    ensures InputPaths(a + b) == InputPaths(a) + InputPaths(b)
    decreases |b|
  {
    if b == [] {
      assert a + b == a;
    } else {
      assert (a + b)[..|a + b| - 1] == a + b[..|b| - 1];
      InputPathsConcat(a, b[..|b| - 1]);
    }
  }

  /** Writing `a` and then `b` is writing `a + b`. */
  lemma ApplyConcat(s: WriterState, a: seq<Line>, b: seq<Line>)
    ensures Apply(Apply(s, a), b) == Apply(s, a + b)
  {
    SymbolNamesConcat(a, b);
    InputPathsConcat(a, b);
    AddAllConcat(s.symbols, SymbolNames(a), SymbolNames(b));
    AddAllConcat(s.filesPaths, InputPaths(a), InputPaths(b));
    assert (s.lines + a) + b == s.lines + (a + b);
  }

  /** Every selector among `lines` contributes its path. */
  lemma {:induction false} InputPathsCover(lines: seq<Line>, i: nat)
    requires i < |lines| && lines[i].InputSection?
    ensures lines[i].path in InputPaths(lines)
  {
    InputPathsConcat(lines[..i + 1], lines[i + 1..]);
    assert lines[..i + 1] + lines[i + 1..] == lines;
    assert lines[..i + 1][..i] == lines[..i];
  }

  /** Every address marker among `lines` contributes its name. */
  lemma {:induction false} SymbolNamesCover(lines: seq<Line>, i: nat)
    requires i < |lines| && lines[i].Symbol?
    ensures lines[i].name in SymbolNames(lines)
  {
    SymbolNamesConcat(lines[..i + 1], lines[i + 1..]);
    assert lines[..i + 1] + lines[i + 1..] == lines;
    assert lines[..i + 1][..i] == lines[..i];
  }

  /** Writing keeps the registry and the path set in step with the lines:
      both stay duplicate-free and insertion-ordered, every address marker
      written is registered and every selector's path is recorded. */
  lemma ApplyKeepsConsistent(s: WriterState, lines: seq<Line>)
    requires Consistent(s)
    ensures Consistent(Apply(s, lines))
    ensures NoDup(Apply(s, lines).symbols) && NoDup(Apply(s, lines).filesPaths)
    ensures forall i :: 0 <= i < |Apply(s, lines).lines| && Apply(s, lines).lines[i].InputSection? ==>
              Apply(s, lines).lines[i].path in Apply(s, lines).filesPaths
    ensures forall i :: 0 <= i < |Apply(s, lines).lines| && Apply(s, lines).lines[i].Symbol? ==>
              Apply(s, lines).lines[i].name in Apply(s, lines).symbols
  {
    ApplyConcat(Initial, s.lines, lines);
    var t := Apply(s, lines);
    AddAllProps([], SymbolNames(t.lines));
    AddAllProps([], InputPaths(t.lines));
    assert Apply(Initial, s.lines) == s;
    assert t == Apply(Initial, t.lines);
    forall i | 0 <= i < |t.lines| && t.lines[i].InputSection? ensures t.lines[i].path in t.filesPaths {
      InputPathsCover(t.lines, i);
    }
    forall i | 0 <= i < |t.lines| && t.lines[i].Symbol? ensures t.lines[i].name in t.symbols {
      SymbolNamesCover(t.lines, i);
    }
  }

  /** Writing nothing changes nothing. */
  lemma ApplyNothing(s: WriterState)
    ensures Apply(s, []) == s
  {
    assert s.lines + [] == s.lines;
  }

  /** No line of `ls` is an input-section selector. */
  predicate NoSelectors(ls: seq<Line>) {
    forall i :: 0 <= i < |ls| ==> !ls[i].InputSection?
  }

  /** Writing one line: an address marker registers its name unless it is
      already registered, a selector records its path unless it is already
      recorded. */
  lemma ApplyOne(s: WriterState, l: Line)
    ensures Apply(s, [l]) == WriterState(s.lines + [l],
      if l.Symbol? then Insert(s.symbols, l.name) else s.symbols,
      if l.InputSection? then Insert(s.filesPaths, l.path) else s.filesPaths)
  {
    OneLineNames(l);
    AddAllOne(s.symbols, if l.Symbol? then [l.name] else []);
    AddAllOne(s.filesPaths, if l.InputSection? then [l.path] else []);
  }

  lemma OneLineNames(l: Line)
    ensures SymbolNames([l]) == if l.Symbol? then [l.name] else []
    ensures InputPaths([l]) == if l.InputSection? then [l.path] else []
  {
    assert [l][..0] == [];
  }

  lemma AddAllOne<T(!new)>(xs: seq<T>, ys: seq<T>)
    requires |ys| <= 1
    ensures AddAll(xs, ys) == if ys == [] then xs else Insert(xs, ys[0])
  {
    if ys != [] {
      assert ys[1..] == [];
    }
  }

  /** Lines without selectors record no path. */
  lemma {:induction false} NoSelectorsNoPaths(ls: seq<Line>)
    requires NoSelectors(ls)
    ensures InputPaths(ls) == []
    decreases |ls|
  {
    if ls != [] {
      NoSelectorsNoPaths(ls[..|ls| - 1]);
    }
  }

  /** Lines that are neither address markers nor selectors touch only the
      line list. */
  lemma ApplyPlain(s: WriterState, lines: seq<Line>)
    requires forall l :: l in lines ==> !l.Symbol? && !l.InputSection?
    ensures Apply(s, lines) == WriterState(s.lines + lines, s.symbols, s.filesPaths)
  {
    PlainHasNoNames(lines);
  }

  lemma {:induction false} PlainHasNoNames(lines: seq<Line>)
    requires forall l :: l in lines ==> !l.Symbol? && !l.InputSection?
    ensures SymbolNames(lines) == [] && InputPaths(lines) == []
    decreases |lines|
  {
    if lines != [] {
      PlainHasNoNames(lines[..|lines| - 1]);
    }
  }
}
