/**
 * Segment-level emission: address-class anchoring on first reference, the
 * lines of one segment, a run over all segments that stops at the first
 * error, the closing of the placement block, and the flat directive lists
 * (symbol assignments, required symbols, assertions, entry point).
 */
module Segments {
  import opened Errors
  import opened Seqs
  import opened NumberText
  import opened ScriptModel
  import opened Emission

  // ---------------------------------------------------------------------
  // Address classes

  /** One "raise the start to at least the end of that class" line per
      followed class, in list order. */
  function FollowLines(env: Env, start: string, follows: seq<string>): seq<Line> {
    if follows == [] then []
    else FollowLines(env, start, follows[..|follows| - 1]) + [MaxSelf(start, env.style.vramClassEnd(follows[|follows| - 1]))]
  }

  /** Line `i` raises the start past the end of the `i`-th followed class. */
  lemma {:induction false} FollowLinesShape(env: Env, start: string, follows: seq<string>)
    ensures |FollowLines(env, start, follows)| == |follows|
    ensures forall i :: 0 <= i < |follows| ==>
      FollowLines(env, start, follows)[i] == MaxSelf(start, env.style.vramClassEnd(follows[i]))
    decreases |follows|
  {
    if follows != [] {
      var prefix := follows[..|follows| - 1];
      FollowLinesShape(env, start, prefix);
      assert forall i :: 0 <= i < |prefix| ==> prefix[i] == follows[i];
    }
  }

  /** The start marker of class `name`: the fixed address if there is one,
      else the anchor symbol, else zero raised past the end of every followed
      class. */
  function ClassStartLines(env: Env, name: string, vc: VramClass): seq<Line> {
    var start := env.style.vramClassStart(name);
    if vc.fixedVram.Some? then [Symbol(start, "0x" + Hex8(vc.fixedVram.value))]
    else if vc.fixedSymbol.Some? then [Symbol(start, vc.fixedSymbol.value)]
    else [Symbol(start, "0x00000000")] + FollowLines(env, start, vc.followsClasses)
  }

  /** The lines that initialise class `name` the first time a segment
      references it. */
  function ClassInitLines(env: Env, name: string, vc: VramClass): seq<Line> {
    ClassStartLines(env, name, vc) + [Symbol(env.style.vramClassEnd(name), "0x00000000"), Empty]
  }

  /** The start lines register the start marker and nothing else. */
  lemma ClassStartNames(env: Env, name: string, vc: VramClass)
    ensures SymbolNames(ClassStartLines(env, name, vc)) == [env.style.vramClassStart(name)]
  {
    var start := env.style.vramClassStart(name);
    var head := [Symbol(start, "0x00000000")];
    OneSymbol(head);
    if vc.fixedVram.None? && vc.fixedSymbol.None? {
      var follows := FollowLines(env, start, vc.followsClasses);
      FollowLinesShape(env, start, vc.followsClasses);
      PlainHasNoNames(follows);
      SymbolNamesConcat(head, follows);
    } else {
      OneSymbol(ClassStartLines(env, name, vc));
    }
  }

  /** The start marker takes the fixed address if there is one, else the
      anchor symbol, else zero raised past the end of every followed class;
      the end marker starts at zero. Exactly those two names are
      registered. */
  lemma ClassStartPrecedence(env: Env, name: string, vc: VramClass)
    ensures var r := ClassInitLines(env, name, vc);
      var start := env.style.vramClassStart(name);
      var end := env.style.vramClassEnd(name);
      && SymbolNames(r) == [start, end]
      && r[0] == Symbol(start, if vc.fixedVram.Some? then "0x" + Hex8(vc.fixedVram.value)
                               else if vc.fixedSymbol.Some? then vc.fixedSymbol.value
                               else "0x00000000")
      && (vc.fixedVram.Some? || vc.fixedSymbol.Some? ==> |r| == 3)
      && (vc.fixedVram.None? && vc.fixedSymbol.None? ==>
            (|r| == |vc.followsClasses| + 3
             && forall i :: 0 <= i < |vc.followsClasses| ==> r[1 + i] == MaxSelf(start, env.style.vramClassEnd(vc.followsClasses[i]))))
      && r[|r| - 2] == Symbol(end, "0x00000000") && r[|r| - 1] == Empty
  {
    ClassInitNames(env, name, vc);
    var start := env.style.vramClassStart(name);
    if vc.fixedVram.None? && vc.fixedSymbol.None? {
      var follows := FollowLines(env, start, vc.followsClasses);
      FollowLinesShape(env, start, vc.followsClasses);
      assert ClassInitLines(env, name, vc) == [Symbol(start, "0x00000000")] + follows + [Symbol(env.style.vramClassEnd(name), "0x00000000"), Empty];
    }
  }

  /** The initialisation registers the start and the end marker, in that
      order. */
  lemma ClassInitNames(env: Env, name: string, vc: VramClass)
    ensures SymbolNames(ClassInitLines(env, name, vc)) == [env.style.vramClassStart(name), env.style.vramClassEnd(name)]
  {
    var end := env.style.vramClassEnd(name);
    var head := ClassStartLines(env, name, vc);
    var tail := [Symbol(end, "0x00000000"), Empty];
    ClassStartNames(env, name, vc);
    OneSymbol(tail[..1]);
    SymbolNamesConcat(tail[..1], tail[1..]);
    assert tail == tail[..1] + tail[1..];
    SymbolNamesConcat(head, tail);
  }

  lemma OneSymbol(ls: seq<Line>)
    requires |ls| == 1 && ls[0].Symbol?
    ensures SymbolNames(ls) == [ls[0].name]
  {
    assert ls[..0] == [];
  }

  // ---------------------------------------------------------------------
  // One segment

  function AlignBoth(align: Option<nat>): seq<Line> {
    if align.Some? then [Align("__romPos", align.value), Align(".", align.value)] else []
  }

  /** The opening of a segment: the start alignment and the rom and vram
      start markers. */
  function SegmentOpenLines(env: Env, seg: Segment): seq<Line> {
    AlignBoth(seg.segmentStartAlign)
    + [Symbol(env.style.segmentRomStart(seg.name), "__romPos"), Symbol(env.style.segmentVramStart(seg.name), "ADDR(." + seg.name + ")")]
  }

  /** The rom counter advance past the segment and the end alignment. */
  function SegmentAdvanceLines(seg: Segment): seq<Line> {
    [Text("__romPos += SIZEOF(." + seg.name + ");")] + AlignBoth(seg.segmentEndAlign)
  }

  /** The vram and rom end and size markers of a segment. */
  function SegmentMarkerLines(env: Env, seg: Segment): seq<Line> {
    var st := env.style;
    var n := seg.name;
    SymEndSizeLines(st.segmentVramStart(n), st.segmentVramEnd(n), st.segmentVramSize(n), ".")
    + SymEndSizeLines(st.segmentRomStart(n), st.segmentRomEnd(n), st.segmentRomSize(n), "__romPos")
  }

  /** For a classed segment, the class end raised to this segment's end;
      then a blank line. */
  function SegmentClassEndLines(env: Env, seg: Segment): seq<Line> {
    (if seg.vramClass.Some? then [Empty, MaxSelf(env.style.vramClassEnd(seg.vramClass.value), env.style.segmentVramEnd(seg.name))] else [])
    + [Empty]
  }

  /** The closing of a segment. */
  function SegmentCloseLines(env: Env, seg: Segment): seq<Line> {
    SegmentAdvanceLines(seg) + SegmentMarkerLines(env, seg) + SegmentClassEndLines(env, seg)
  }

  /** The loaded and the zero-initialised output sections of a segment,
      each followed by a blank line. */
  function SegmentSectionsLines(env: Env, seg: Segment): seq<Line> {
    WriteSegmentLines(env, seg, seg.allocSections, false) + [Empty]
    + WriteSegmentLines(env, seg, seg.noloadSections, true) + [Empty]
  }

  /** What `add_segment` writes after any class initialisation: the opening,
      the output sections, and the closing. */
  function SegmentBodyLines(env: Env, seg: Segment): seq<Line> {
    SegmentOpenLines(env, seg) + SegmentSectionsLines(env, seg) + SegmentCloseLines(env, seg)
  }

  /** A segment ends with a blank line; a classed segment's last lines raise
      its class's end marker to the segment's vram end. */
  lemma SegmentBodyEnd(env: Env, seg: Segment)
    ensures var r := SegmentBodyLines(env, seg);
      && (seg.vramClass.Some? ==>
            (|r| >= 3 &&
             r[|r| - 3..] == [Empty, MaxSelf(env.style.vramClassEnd(seg.vramClass.value), env.style.segmentVramEnd(seg.name)), Empty]))
      && (seg.vramClass.None? ==> |r| >= 1 && r[|r| - 1] == Empty)
  {
    var last := SegmentClassEndLines(env, seg);
    var r := SegmentBodyLines(env, seg);
    assert r == SegmentOpenLines(env, seg) + SegmentSectionsLines(env, seg) + SegmentAdvanceLines(seg)
              + SegmentMarkerLines(env, seg) + last;
    assert r == r[..|r| - |last|] + last;
    if seg.vramClass.Some? {
      assert last == [Empty, MaxSelf(env.style.vramClassEnd(seg.vramClass.value), env.style.segmentVramEnd(seg.name)), Empty];
    }
  }

  /** The effect of emitting segments: lines written, the class table
      afterwards, the error if any, and the classes initialised. */
  datatype SegmentOutcome = SegmentOutcome(
    lines: seq<Line>,
    classes: map<string, VramClass>,
    error: Option<SlinkyError>,
    initialised: seq<string>)

  /** The segment is emitted and belongs to class `c`. */
  predicate References(env: Env, seg: Segment, c: string) {
    env.shouldEmit(seg.conditions) && seg.vramClass == Some(c)
  }

  /** The segment is emitted and names a class the table does not have. */
  predicate UnknownClass(env: Env, classes: map<string, VramClass>, seg: Segment) {
    env.shouldEmit(seg.conditions) && seg.vramClass.Some? && seg.vramClass.value !in classes
  }

  /** `add_segment`. */
  function AddSegmentSpec(env: Env, classes: map<string, VramClass>, seg: Segment): (r: SegmentOutcome)
    ensures r.classes.Keys == classes.Keys
  {
    if !env.shouldEmit(seg.conditions) then SegmentOutcome([], classes, None, [])
    else if seg.vramClass.Some? && seg.vramClass.value !in classes then
      SegmentOutcome([], classes, Some(MissingVramClassForSegment(seg.name, seg.vramClass.value)), [])
    else if seg.vramClass.Some? && !classes[seg.vramClass.value].emitted then
      var c := seg.vramClass.value;
      SegmentOutcome(ClassInitLines(env, c, classes[c]) + SegmentBodyLines(env, seg), classes[c := classes[c].(emitted := true)], None, [c])
    else SegmentOutcome(SegmentBodyLines(env, seg), classes, None, [])
  }

  /** A segment the runtime conditions exclude changes nothing; one of an
      unknown class fails and changes nothing; otherwise the segment's class
      is initialised exactly when it was not emitted before, and afterwards
      it is marked emitted while every other class is unchanged. */
  lemma AddSegmentOutcome(env: Env, classes: map<string, VramClass>, seg: Segment)
    ensures var r := AddSegmentSpec(env, classes, seg);
      && (!env.shouldEmit(seg.conditions) ==> r == SegmentOutcome([], classes, None, []))
      && (r.error.Some? <==> UnknownClass(env, classes, seg))
      && (r.error.Some? ==>
            r == SegmentOutcome([], classes, Some(MissingVramClassForSegment(seg.name, seg.vramClass.value)), []))
      && |r.initialised| <= 1
      && (forall c :: c in r.initialised <==> References(env, seg, c) && c in classes && !classes[c].emitted)
      && (forall c :: c in classes ==>
            r.classes[c] == classes[c].(emitted := classes[c].emitted || References(env, seg, c)))
  {
  }

  /** An emitted segment of a class ends by raising the class's end marker
      to the segment's own vram end. */
  lemma SegmentRaisesClassEnd(env: Env, classes: map<string, VramClass>, seg: Segment)
    requires env.shouldEmit(seg.conditions) && seg.vramClass.Some? && seg.vramClass.value in classes
    ensures var ls := AddSegmentSpec(env, classes, seg).lines;
      |ls| >= 3 &&
      ls[|ls| - 3..] == [Empty, MaxSelf(env.style.vramClassEnd(seg.vramClass.value), env.style.segmentVramEnd(seg.name)), Empty]
  {
    var body := SegmentBodyLines(env, seg);
    SegmentBodyEnd(env, seg);
    var c := seg.vramClass.value;
    var ls := AddSegmentSpec(env, classes, seg).lines;
    if classes[c].emitted {
      assert ls == body;
    } else {
      var init := ClassInitLines(env, c, classes[c]);
      assert ls == init + body;
      assert ls[|ls| - 3..] == body[|body| - 3..];
    }
  }

  /** The segment loop of `add_all_segments`: every segment in turn, stopping
      at the first error. */
  function AddSegmentsSpec(env: Env, classes: map<string, VramClass>, segs: seq<Segment>): (r: SegmentOutcome)
    ensures r.classes.Keys == classes.Keys
    decreases |segs|
  {
    if segs == [] then SegmentOutcome([], classes, None, [])
    else
      var p := AddSegmentsSpec(env, classes, segs[..|segs| - 1]);
      if p.error.Some? then p
      else
        var o := AddSegmentSpec(env, p.classes, segs[|segs| - 1]);
        SegmentOutcome(p.lines + o.lines, o.classes, o.error, p.initialised + o.initialised)
  }

  /** Once a prefix of the run has failed, the rest of the run adds
      nothing: the whole run's outcome is the prefix's. */
  lemma {:induction false} ErrorIsFinal(env: Env, classes: map<string, VramClass>, segs: seq<Segment>, i: nat)
    requires i <= |segs| && AddSegmentsSpec(env, classes, segs[..i]).error.Some?
    ensures AddSegmentsSpec(env, classes, segs) == AddSegmentsSpec(env, classes, segs[..i])
    decreases |segs|
  {
    if i < |segs| {
      var prefix := segs[..|segs| - 1];
      assert prefix[..i] == segs[..i];
      ErrorIsFinal(env, classes, prefix, i);
    } else {
      assert segs[..i] == segs;
    }
  }

  /** Across a run, each class is initialised at most once, only if it was
      not emitted before, and afterwards exactly the initialised ones have
      changed: their `emitted` flag is set. */
  lemma {:induction false} ClassesInitialisedOnce(env: Env, classes: map<string, VramClass>, segs: seq<Segment>)
    ensures var r := AddSegmentsSpec(env, classes, segs);
      && NoDup(r.initialised)
      && (forall c :: c in r.initialised ==> c in classes && !classes[c].emitted)
      && (forall c :: c in classes ==> r.classes[c] == classes[c].(emitted := classes[c].emitted || c in r.initialised))
    decreases |segs|
  {
    if segs != [] {
      var prefix := segs[..|segs| - 1];
      ClassesInitialisedOnce(env, classes, prefix);
      var p := AddSegmentsSpec(env, classes, prefix);
      if p.error.None? {
        var o := AddSegmentSpec(env, p.classes, segs[|segs| - 1]);
        AddSegmentOutcome(env, p.classes, segs[|segs| - 1]);
        var ini := p.initialised + o.initialised;
        forall i, j | 0 <= i < j < |ini| ensures ini[i] != ini[j] {
          if j >= |p.initialised| && i < |p.initialised| {
            assert ini[j] in o.initialised;
            assert ini[i] in p.initialised;
          }
        }
      }
    }
  }

  /** Some emitted segment of `segs` belongs to class `c`. */
  predicate ReferencedIn(env: Env, segs: seq<Segment>, c: string) {
    exists i :: 0 <= i < |segs| && References(env, segs[i], c)
  }

  lemma ReferencedInSnoc(env: Env, segs: seq<Segment>, c: string)
    requires segs != []
    ensures ReferencedIn(env, segs, c) <==>
      ReferencedIn(env, segs[..|segs| - 1], c) || References(env, segs[|segs| - 1], c)
  {
    var prefix := segs[..|segs| - 1];
    if ReferencedIn(env, segs, c) {
      var i :| 0 <= i < |segs| && References(env, segs[i], c);
      if i < |prefix| {
        assert References(env, prefix[i], c);
      }
    }
    if ReferencedIn(env, prefix, c) {
      var i :| 0 <= i < |prefix| && References(env, prefix[i], c);
      assert References(env, segs[i], c);
    }
  }

  /** With no error, a class is initialised exactly when it was not emitted
      before and some emitted segment of the run belongs to it. */
  lemma {:induction false} ClassInitialisedIffReferenced(env: Env, classes: map<string, VramClass>, segs: seq<Segment>, c: string)
    requires AddSegmentsSpec(env, classes, segs).error.None?
    ensures c in AddSegmentsSpec(env, classes, segs).initialised <==>
      c in classes && !classes[c].emitted && ReferencedIn(env, segs, c)
    decreases |segs|
  {
    if segs != [] {
      var prefix := segs[..|segs| - 1];
      var p := AddSegmentsSpec(env, classes, prefix);
      assert p.error.None?;
      ClassInitialisedIffReferenced(env, classes, prefix, c);
      ClassesInitialisedOnce(env, classes, prefix);
      ReferencedInSnoc(env, segs, c);
      InitialisedStep(env, classes, p, segs[|segs| - 1], c);
    }
  }

  /** One step of the run: `c` is initialised by it exactly when it was not
      emitted before the run, not initialised so far, and the segment belongs
      to it. */
  lemma InitialisedStep(env: Env, classes: map<string, VramClass>, p: SegmentOutcome, seg: Segment, c: string)
    requires p.classes.Keys == classes.Keys
    requires forall d :: d in classes ==> p.classes[d] == classes[d].(emitted := classes[d].emitted || d in p.initialised)
    ensures c in AddSegmentSpec(env, p.classes, seg).initialised <==>
      References(env, seg, c) && c in classes && !classes[c].emitted && c !in p.initialised
  {
    AddSegmentOutcome(env, p.classes, seg);
  }

  /** Segment `i` is the first that names an unknown class, `r` reports it,
      and `r`'s lines are those of the segments before it. */
  predicate FirstFailure(env: Env, classes: map<string, VramClass>, segs: seq<Segment>, i: int, r: SegmentOutcome) {
    && 0 <= i < |segs| && UnknownClass(env, classes, segs[i])
    && (forall j :: 0 <= j < i ==> !UnknownClass(env, classes, segs[j]))
    && r.error == Some(MissingVramClassForSegment(segs[i].name, segs[i].vramClass.value))
    && r.lines == AddSegmentsSpec(env, classes, segs[..i]).lines
  }

  /** Some emitted segment of `segs` names a class the table lacks. */
  predicate AnyUnknown(env: Env, classes: map<string, VramClass>, segs: seq<Segment>) {
    exists i :: 0 <= i < |segs| && UnknownClass(env, classes, segs[i])
  }

  lemma AnyUnknownSnoc(env: Env, classes: map<string, VramClass>, segs: seq<Segment>)
    requires segs != []
    ensures AnyUnknown(env, classes, segs) <==>
      AnyUnknown(env, classes, segs[..|segs| - 1]) || UnknownClass(env, classes, segs[|segs| - 1])
  {
    var prefix := segs[..|segs| - 1];
    if AnyUnknown(env, classes, segs) {
      var i :| 0 <= i < |segs| && UnknownClass(env, classes, segs[i]);
      if i < |prefix| {
        assert UnknownClass(env, classes, prefix[i]);
      }
    }
    if AnyUnknown(env, classes, prefix) {
      var i :| 0 <= i < |prefix| && UnknownClass(env, classes, prefix[i]);
      assert UnknownClass(env, classes, segs[i]);
    }
  }

  /** The run fails exactly when some emitted segment names an unknown
      class; the error names the first such segment, and the lines written
      are those of the segments before it. */
  lemma {:induction false} AddSegmentsStopsAtFirstError(env: Env, classes: map<string, VramClass>, segs: seq<Segment>)
    ensures var r := AddSegmentsSpec(env, classes, segs);
      && (r.error.Some? <==> AnyUnknown(env, classes, segs))
      && (r.error.Some? ==> exists i :: FirstFailure(env, classes, segs, i, r))
    decreases |segs|
  {
    if segs != [] {
      var prefix := segs[..|segs| - 1];
      AddSegmentsStopsAtFirstError(env, classes, prefix);
      AnyUnknownSnoc(env, classes, segs);
      var p := AddSegmentsSpec(env, classes, prefix);
      var r := AddSegmentsSpec(env, classes, segs);
      if p.error.Some? {
        var i :| FirstFailure(env, classes, prefix, i, p);
        FirstFailureExtends(env, classes, segs, i, p);
      } else {
        LastFails(env, classes, segs, p);
      }
    }
  }

  /** A failure found in a prefix is still the first failure of the run. */
  lemma FirstFailureExtends(env: Env, classes: map<string, VramClass>, segs: seq<Segment>, i: int, p: SegmentOutcome)
    requires segs != []
    requires FirstFailure(env, classes, segs[..|segs| - 1], i, p)
    requires AddSegmentsSpec(env, classes, segs[..|segs| - 1]) == p
    ensures AddSegmentsSpec(env, classes, segs) == p
    ensures FirstFailure(env, classes, segs, i, p)
  {
    var prefix := segs[..|segs| - 1];
    assert prefix[..i] == segs[..i];
    assert forall j :: 0 <= j <= i ==> prefix[j] == segs[j];
  }

  /** With a clean prefix, the run fails exactly when the last segment does,
      and then the last segment is the first failure. */
  lemma LastFails(env: Env, classes: map<string, VramClass>, segs: seq<Segment>, p: SegmentOutcome)
    requires segs != []
    requires AddSegmentsSpec(env, classes, segs[..|segs| - 1]) == p
    requires p.error.None? && !AnyUnknown(env, classes, segs[..|segs| - 1])
    ensures var r := AddSegmentsSpec(env, classes, segs);
      && (r.error.Some? <==> UnknownClass(env, classes, segs[|segs| - 1]))
      && (r.error.Some? ==> FirstFailure(env, classes, segs, |segs| - 1, r))
  {
    var prefix := segs[..|segs| - 1];
    var last := segs[|segs| - 1];
    var r := AddSegmentsSpec(env, classes, segs);
    var o := AddSegmentSpec(env, p.classes, last);
    AddSegmentOutcome(env, p.classes, last);
    assert UnknownClass(env, p.classes, last) <==> UnknownClass(env, classes, last);
    if o.error.Some? {
      assert r.lines == p.lines + [];
      forall j | 0 <= j < |segs| - 1 ensures !UnknownClass(env, classes, segs[j]) {
        assert segs[j] == prefix[j];
      }
    }
  }

  // ---------------------------------------------------------------------
  // Opening and closing the placement block

  /** `begin_sections`. */
  function BeginSectionsLines(env: Env): seq<Line> {
    [Text("SECTIONS"), BeginBlock, Text("__romPos = 0x0;")]
    + (if env.settings.hardcodedGpValue.Some? then [Text("_gp = 0x" + Hex8(env.settings.hardcodedGpValue.value) + ";")] else [])
    + [Empty]
  }

  /** One size marker per emitted class, in table order. */
  function ClassSizeLines(env: Env, names: seq<string>, classes: map<string, VramClass>): seq<Line> {
    if names == [] then []
    else
      var n := names[|names| - 1];
      ClassSizeLines(env, names[..|names| - 1], classes)
      + (if n in classes && classes[n].emitted
         then [Symbol(env.style.vramClassSize(n), env.style.vramClassEnd(n) + " - " + env.style.vramClassStart(n))]
         else [])
  }

  /** The size markers are written for exactly the classes that were
      emitted, each as the distance from its start to its end. */
  lemma {:induction false} ClassSizesOfEmittedClasses(env: Env, names: seq<string>, classes: map<string, VramClass>, l: Line)
    ensures l in ClassSizeLines(env, names, classes) <==>
      exists n :: n in names && n in classes && classes[n].emitted &&
        l == Symbol(env.style.vramClassSize(n), env.style.vramClassEnd(n) + " - " + env.style.vramClassStart(n))
    decreases |names|
  {
    if names != [] {
      var prefix := names[..|names| - 1];
      ClassSizesOfEmittedClasses(env, prefix, classes, l);
      assert names == prefix + [names[|names| - 1]];
    }
  }

  /** A placeholder output section per listed section. */
  function SingleEntryLines(sects: seq<string>): seq<Line> {
    if sects == [] then [] else SingleEntryLines(sects[..|sects| - 1]) + [SingleEntrySection(sects[|sects| - 1], "0")]
  }

  /** A discard selector per denied section. */
  function DenyLines(sects: seq<string>): seq<Line> {
    if sects == [] then [] else DenyLines(sects[..|sects| - 1]) + [Text("*(" + sects[|sects| - 1] + ");")]
  }

  /** A group of placeholder output sections, after a blank line if
      something was written before it in the placement block. */
  function EntryGroupLines(needLn: bool, sects: seq<string>): seq<Line> {
    if sects == [] then [] else (if needLn then [Empty] else []) + SingleEntryLines(sects)
  }

  /** The discard section, if anything is discarded. */
  function DiscardLines(s: Settings, needLn: bool): seq<Line> {
    if s.discardWildcardSection || s.sectionsDenylist != [] then
      (if needLn then [Empty] else []) + [Text("/DISCARD/ :"), BeginBlock] + DenyLines(s.sectionsDenylist)
      + ((if s.discardWildcardSection then [Text("*(*);")] else []) + [EndBlock])
    else []
  }

  /** `end_sections`; a blank line separates each non-empty group from the
      one before it. */
  function EndSectionsLines(env: Env, names: seq<string>, classes: map<string, VramClass>): seq<Line> {
    var s := env.settings;
    var sizes := ClassSizeLines(env, names, classes);
    sizes + AllowLines(s, sizes != [])
    + DiscardLines(s, sizes != [] || s.sectionsAllowlist != [] || s.sectionsAllowlistExtra != []) + [EndBlock]
  }

  /** The two groups of placeholder sections of `end_sections`. */
  function AllowLines(s: Settings, needLn: bool): seq<Line> {
    EntryGroupLines(needLn, s.sectionsAllowlist) + EntryGroupLines(needLn || s.sectionsAllowlist != [], s.sectionsAllowlistExtra)
  }

  /** `add_single_segment`: the one segment, each section its own output
      section, then the closing lines. */
  function AddSingleSegmentLines(env: Env, names: seq<string>, classes: map<string, VramClass>, seg: Segment): seq<Line> {
    SingleOpenLines(seg) + SingleSectionsLines(env, seg) + EndSectionsLines(env, names, classes)
  }

  /** The opening of the placement block in single-segment mode, with the
      location counter set to the segment's fixed address if it has one. */
  function SingleOpenLines(seg: Segment): seq<Line> {
    [Text("SECTIONS"), BeginBlock]
    + (if seg.fixedVram.Some? then [Text(". = 0x" + Hex8(seg.fixedVram.value) + ";"), Empty] else [])
  }

  /** The loaded and the zero-initialised sections of the one segment, each
      followed by a blank line. */
  function SingleSectionsLines(env: Env, seg: Segment): seq<Line> {
    WriteSingleSegmentLines(env, seg, seg.allocSections, false) + [Empty]
    + WriteSingleSegmentLines(env, seg, seg.noloadSections, true) + [Empty]
  }

  /** `add_all_segments`. */
  function AddAllSegmentsSpec(env: Env, names: seq<string>, classes: map<string, VramClass>, segs: seq<Segment>): SegmentOutcome
    requires env.settings.singleSegmentMode ==> |segs| == 1
  {
    if env.settings.singleSegmentMode then
      SegmentOutcome(AddSingleSegmentLines(env, names, classes, segs[0]), classes, None, [])
    else
      var o := AddSegmentsSpec(env, classes, segs);
      if o.error.Some? then o.(lines := BeginSectionsLines(env) + o.lines)
      else o.(lines := BeginSectionsLines(env) + o.lines + EndSectionsLines(env, names, o.classes))
  }

  // ---------------------------------------------------------------------
  // Directives

  /** A blank line before a directive group, unless nothing was written yet. */
  function GroupSeparator(written: seq<Line>): seq<Line> {
    if written == [] then [] else [Empty]
  }

  /** `add_entry`. */
  function EntryLines(written: seq<Line>, entry: string): seq<Line> {
    GroupSeparator(written) + [Text("ENTRY(" + entry + ");")]
  }

  function AssignmentLines(env: Env, xs: seq<SymbolAssignment>): seq<Line> {
    if xs == [] then []
    else
      var x := xs[|xs| - 1];
      AssignmentLines(env, xs[..|xs| - 1])
      + (if env.shouldEmit(x.conditions) then [Assignment(x.name, x.value, x.provide, x.hidden)] else [])
  }

  function RequiredLines(env: Env, xs: seq<RequiredSymbol>): seq<Line> {
    if xs == [] then []
    else
      var x := xs[|xs| - 1];
      RequiredLines(env, xs[..|xs| - 1]) + (if env.shouldEmit(x.conditions) then [Required(x.name)] else [])
  }

  function AssertLines(env: Env, xs: seq<AssertEntry>): seq<Line> {
    if xs == [] then []
    else
      var x := xs[|xs| - 1];
      AssertLines(env, xs[..|xs| - 1]) + (if env.shouldEmit(x.conditions) then [Assert(x.check, x.errorMessage)] else [])
  }

  /** `add_all_symbol_assignments` and its two siblings: nothing for an empty
      list, else a separator and the admitted entries. */
  function DirectiveGroupLines(written: seq<Line>, nonEmpty: bool, body: seq<Line>): seq<Line> {
    if nonEmpty then GroupSeparator(written) + body else []
  }

  /** Exactly the assignments the runtime conditions admit are written. */
  lemma {:induction false} AssignmentsAdmitted(env: Env, xs: seq<SymbolAssignment>, l: Line)
    ensures l in AssignmentLines(env, xs) <==>
      exists i :: 0 <= i < |xs| && env.shouldEmit(xs[i].conditions) && l == Assignment(xs[i].name, xs[i].value, xs[i].provide, xs[i].hidden)
    decreases |xs|
  {
    if xs != [] {
      AssignmentsAdmitted(env, xs[..|xs| - 1], l);
      assert forall i :: 0 <= i < |xs| - 1 ==> xs[..|xs| - 1][i] == xs[i];
    }
  }

  /** Exactly the required symbols the runtime conditions admit are written. */
  lemma {:induction false} RequiredAdmitted(env: Env, xs: seq<RequiredSymbol>, l: Line)
    ensures l in RequiredLines(env, xs) <==>
      exists i :: 0 <= i < |xs| && env.shouldEmit(xs[i].conditions) && l == Required(xs[i].name)
    decreases |xs|
  {
    if xs != [] {
      RequiredAdmitted(env, xs[..|xs| - 1], l);
      assert forall i :: 0 <= i < |xs| - 1 ==> xs[..|xs| - 1][i] == xs[i];
    }
  }

  /** Exactly the assertions the runtime conditions admit are written. */
  lemma {:induction false} AssertsAdmitted(env: Env, xs: seq<AssertEntry>, l: Line)
    ensures l in AssertLines(env, xs) <==>
      exists i :: 0 <= i < |xs| && env.shouldEmit(xs[i].conditions) && l == Assert(xs[i].check, xs[i].errorMessage)
    decreases |xs|
  {
    if xs != [] {
      AssertsAdmitted(env, xs[..|xs| - 1], l);
      assert forall i :: 0 <= i < |xs| - 1 ==> xs[..|xs| - 1][i] == xs[i];
    }
  }
}
