/**
 * The two side files of a generated script: the make-style dependency rule
 * that lists every referenced input, and the C header that declares every
 * address marker. Each is described as the sequence of pieces the exporter
 * writes, in order; the file's text is their concatenation (`Concat`).
 */
module Exports {
  import opened Seqs

  // ---------------------------------------------------------------------
  // The dependency file

  /** One continuation line per prerequisite. */
  function PrereqChunks(paths: seq<string>): seq<string> {
    if paths == [] then [] else PrereqChunks(paths[..|paths| - 1]) + [" \\\n    " + paths[|paths| - 1]]
  }

  /** One empty rule per prerequisite, so that a deleted input does not stop
      `make`. */
  function RuleChunks(paths: seq<string>): seq<string> {
    if paths == [] then [] else RuleChunks(paths[..|paths| - 1]) + [paths[|paths| - 1] + ":\n"]
  }

  /** `export_dependencies_file`: the target, its prerequisites, a blank
      line and the empty rules. */
  function DependencyChunks(target: string, paths: seq<string>): seq<string> {
    [target + ":"] + PrereqChunks(paths) + ["\n\n"] + RuleChunks(paths)
  }

  lemma {:induction false} PrereqChunksShape(paths: seq<string>)
    ensures |PrereqChunks(paths)| == |paths|
    ensures forall i :: 0 <= i < |paths| ==> PrereqChunks(paths)[i] == " \\\n    " + paths[i]
    decreases |paths|
  {
    if paths != [] {
      PrereqChunksShape(paths[..|paths| - 1]);
    }
  }

  lemma {:induction false} RuleChunksShape(paths: seq<string>)
    ensures |RuleChunks(paths)| == |paths|
    ensures forall i :: 0 <= i < |paths| ==> RuleChunks(paths)[i] == paths[i] + ":\n"
    decreases |paths|
  {
    if paths != [] {
      RuleChunksShape(paths[..|paths| - 1]);
    }
  }

  /** The dependency file's layout: the target; one continuation per path,
      in order; a blank line; one empty rule per path, in the same order. */
  lemma DependencyShape(target: string, paths: seq<string>)
    ensures |DependencyChunks(target, paths)| == 2 * |paths| + 2
    ensures DependencyChunks(target, paths)[0] == target + ":"
    ensures DependencyChunks(target, paths)[|paths| + 1] == "\n\n"
    ensures forall i :: 0 <= i < |paths| ==>
      DependencyChunks(target, paths)[1 + i] == " \\\n    " + paths[i] &&
      DependencyChunks(target, paths)[|paths| + 2 + i] == paths[i] + ":\n"
  {
    PrereqChunksShape(paths);
    RuleChunksShape(paths);
    var d := DependencyChunks(target, paths);
    forall i | 0 <= i < |paths|
      ensures d[1 + i] == " \\\n    " + paths[i] && d[|paths| + 2 + i] == paths[i] + ":\n"
    {
      assert d[1 + i] == PrereqChunks(paths)[i];
      assert d[|paths| + 2 + i] == RuleChunks(paths)[i];
    }
  }

  /** Two strings with the same suffix are equal exactly when what precedes
      the suffix is. */
  lemma SameSuffix(a: string, b: string, c: string)
    requires a + c == b + c
    ensures a == b
  {
    assert |a| == |b|;
    assert a == (a + c)[..|a|];
    assert b == (b + c)[..|b|];
  }

  /** With a duplicate-free path set, no rule is written twice. */
  lemma RulesDistinct(paths: seq<string>)
    requires NoDup(paths)
    ensures NoDup(RuleChunks(paths))
  {
    RuleChunksShape(paths);
    var r := RuleChunks(paths);
    forall i, j | 0 <= i < j < |r| ensures r[i] != r[j] {
      if r[i] == r[j] {
        SameSuffix(paths[i], paths[j], ":\n");
        assert false;
      }
    }
  }

  // ---------------------------------------------------------------------
  // The symbol header

  const HeaderGuard := "#ifndef HEADER_SYMBOLS_H\n#define HEADER_SYMBOLS_H\n\n"
  const HeaderEnd := "\n#endif\n"

  /** The declarator suffix: the markers are declared as arrays or not. */
  function ArraySuffix(asArray: bool): string {
    if asArray then "[]" else ""
  }

  /** One `extern` declaration per marker. */
  function ExternChunks(ty: string, syms: seq<string>, suffix: string): seq<string> {
    if syms == [] then [] else ExternChunks(ty, syms[..|syms| - 1], suffix) + ["extern " + ty + " " + syms[|syms| - 1] + suffix + ";\n"]
  }

  /** `export_symbol_header`: the include guard, the declarations and the
      guard's end. */
  function HeaderChunks(ty: string, asArray: bool, syms: seq<string>): seq<string> {
    [HeaderGuard] + ExternChunks(ty, syms, ArraySuffix(asArray)) + [HeaderEnd]
  }

  lemma {:induction false} ExternChunksShape(ty: string, syms: seq<string>, suffix: string)
    ensures |ExternChunks(ty, syms, suffix)| == |syms|
    ensures forall i :: 0 <= i < |syms| ==> ExternChunks(ty, syms, suffix)[i] == "extern " + ty + " " + syms[i] + suffix + ";\n"
    decreases |syms|
  {
    if syms != [] {
      ExternChunksShape(ty, syms[..|syms| - 1], suffix);
    }
  }

  /** The header's layout: the guard, exactly one declaration per marker in
      registry order, with the array suffix `[]` exactly when the markers are
      declared as arrays, and the guard's end. */
  lemma HeaderShape(ty: string, asArray: bool, syms: seq<string>)
    ensures |HeaderChunks(ty, asArray, syms)| == |syms| + 2
    ensures HeaderChunks(ty, asArray, syms)[0] == HeaderGuard
    ensures HeaderChunks(ty, asArray, syms)[|syms| + 1] == HeaderEnd
    ensures forall i :: 0 <= i < |syms| ==>
      HeaderChunks(ty, asArray, syms)[1 + i] == "extern " + ty + " " + syms[i] + (if asArray then "[]" else "") + ";\n"
  {
    ExternChunksShape(ty, syms, ArraySuffix(asArray));
    var h := HeaderChunks(ty, asArray, syms);
    forall i | 0 <= i < |syms|
      ensures h[1 + i] == "extern " + ty + " " + syms[i] + (if asArray then "[]" else "") + ";\n"
    {
      assert h[1 + i] == ExternChunks(ty, syms, ArraySuffix(asArray))[i];
    }
  }
}
