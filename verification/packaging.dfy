/**
 The per-header loop of the packaging script: every configured header that
 exists under the source directory is amalgamated into an output of its own,
 each with a fresh output stream and a fresh, empty list of included paths,
 so that no header depends on what was expanded for another.
 */
module Packaging {
  import opened FileModel
  import opened IncludePattern
  import opened AmalgamationSpec
  import opened Amalgamator
  import opened Sequences

  /** The headers the script packages, relative to the source directory. */
  const ExpectedFiles: seq<Path> := [
    "arm/neon.h",
    "arm/sve.h",
    "mips/msa.h",
    "wasm/relaxed-simd.h",
    "wasm/simd128.h",
    "x86/aes.h",
    "x86/avx.h",
    "x86/avx2.h",
    "x86/avx512.h",
    "x86/clmul.h",
    "x86/f16c.h",
    "x86/fma.h",
    "x86/gfni.h",
    "x86/mmx.h",
    "x86/sse.h",
    "x86/sse2.h",
    "x86/sse3.h",
    "x86/sse4.1.h",
    "x86/sse4.2.h",
    "x86/ssse3.h",
    "x86/svml.h",
    "x86/xop.h"
  ]

  /** The content of the output file for one header, or `None` when the
      header does not exist and is skipped. */
  function HeaderOutput(fs: FileSystem, sourceDir: Path, repoRoot: Path, gitId: string, rel: Path): (o: Option<seq<string>>)
    ensures o.Some? <==> fs.Exists(fs.join(sourceDir, rel))
    ensures o.Some? ==> |o.value| >= 2 && o.value[..2] == Banner(gitId)
  {
    var src := fs.join(sourceDir, rel);
    if fs.Exists(src) then Some(Amalg(fs, repoRoot, gitId, src, []).out) else None
  }

  /** The loop of `main` over a list of headers: output `i` belongs to
      header `i` alone. */
  method AmalgamateHeaders(fs: FileSystem, sourceDir: Path, headers: seq<Path>, repoRoot: Path, gitId: string)
    returns (outputs: seq<Option<seq<string>>>)
    ensures |outputs| == |headers|
    ensures forall i :: 0 <= i < |headers| ==> outputs[i] == HeaderOutput(fs, sourceDir, repoRoot, gitId, headers[i])
  {
    outputs := [];
    for k := 0 to |headers|
      invariant |outputs| == k
      invariant forall i :: 0 <= i < k ==> outputs[i] == HeaderOutput(fs, sourceDir, repoRoot, gitId, headers[i])
    {
      var sourcePath := fs.join(sourceDir, headers[k]);
      if fs.Exists(sourcePath) {
        var outfile := new Stream();
        var alreadyIncluded := new PathList();
        Amalgamate(sourcePath, outfile, alreadyIncluded, fs, repoRoot, gitId);
        assert outfile.written == Amalg(fs, repoRoot, gitId, sourcePath, []).out;
        outputs := outputs + [Some(outfile.written)];
      } else {
        outputs := outputs + [None];
      }
    }
  }

  /** What `main` amalgamates: the 22 configured headers, one output each. */
  method AmalgamateExpected(fs: FileSystem, sourceDir: Path, repoRoot: Path, gitId: string)
    returns (outputs: seq<Option<seq<string>>>)
    ensures |outputs| == 22
    ensures forall i :: 0 <= i < 22 ==> outputs[i] == HeaderOutput(fs, sourceDir, repoRoot, gitId, ExpectedFiles[i])
  {
    outputs := AmalgamateHeaders(fs, sourceDir, ExpectedFiles, repoRoot, gitId);
  }

  /** Every header that exists is expanded in full: since the list starts
      empty, its output is never the bare banner, but the header's own lines
      between its Begin and End markers, or the error comment when it cannot
      be opened. */
  lemma HeaderSelfContained(fs: FileSystem, sourceDir: Path, repoRoot: Path, gitId: string, rel: Path)
    requires fs.Exists(fs.join(sourceDir, rel))
    ensures var src := fs.join(sourceDir, rel);
      var full := fs.realpath(src);
      var o := HeaderOutput(fs, sourceDir, repoRoot, gitId, rel);
      && o.Some?
      && o.value[..2] == Banner(gitId)
      && (fs.Opens(src) ==>
            && o.value[2] == BeginMarker(DisplayPath(fs, full, repoRoot))
            && o.value[3..|o.value| - 1]
               == AmalgLines(fs, repoRoot, gitId, fs.dirname(full), fs.lines[full], [full]).out
            && o.value[|o.value| - 1] == EndMarker(DisplayPath(fs, full, repoRoot)))
      && (!fs.Opens(src) ==> o.value == Banner(gitId) + [ErrorLine(src)])
  {
    var src := fs.join(sourceDir, rel);
    if fs.Opens(src) {
      FirstReadBracketed(fs, repoRoot, gitId, src, []);
      assert [] + [fs.realpath(src)] == [fs.realpath(src)];
    } else {
      OpenFailureWritesDiagnostic(fs, repoRoot, gitId, src, []);
    }
  }

  /** A readable file `g` that the run of a header reaches (records in its
      list), directly or through other includes, is expanded in full in that
      header's output: the output holds, as a contiguous run, a call on `g`
      made before `g` was recorded, which writes the banner, `g`'s Begin
      marker, the loop over `g`'s lines and `g`'s End marker. */
  lemma ReachedFileExpanded(fs: FileSystem, sourceDir: Path, repoRoot: Path, gitId: string, rel: Path, g: Path)
    returns (f: Path, before: seq<Path>)
    requires fs.Exists(fs.join(sourceDir, rel))
    requires g in Amalg(fs, repoRoot, gitId, fs.join(sourceDir, rel), []).included && g in fs.lines
    ensures var o := HeaderOutput(fs, sourceDir, repoRoot, gitId, rel);
      && o.Some?
      && fs.realpath(f) == g && g !in before
      && Contains(o.value, Amalg(fs, repoRoot, gitId, f, before).out)
    ensures var e := Amalg(fs, repoRoot, gitId, f, before).out;
      var d := DisplayPath(fs, g, repoRoot);
      && |e| >= 4
      && e[..2] == Banner(gitId)
      && e[2] == BeginMarker(d)
      && e[3..|e| - 1] == AmalgLines(fs, repoRoot, gitId, fs.dirname(g), fs.lines[g], before + [g]).out
      && e[|e| - 1] == EndMarker(d)
  {
    f, before := RecordedExpanded(fs, repoRoot, gitId, fs.join(sourceDir, rel), [], g);
    FirstReadBracketed(fs, repoRoot, gitId, f, before);
  }

  /** Two headers whose runs both reach the readable file `g` each hold a
      full expansion of `g`, Begin and End markers included: the second
      header does not see that the first already expanded it. */
  lemma SharedIncludeExpandedInEach(fs: FileSystem, sourceDir: Path, repoRoot: Path, gitId: string,
                                    rel1: Path, rel2: Path, g: Path)
    returns (f1: Path, before1: seq<Path>, f2: Path, before2: seq<Path>)
    requires fs.Exists(fs.join(sourceDir, rel1)) && fs.Exists(fs.join(sourceDir, rel2)) && g in fs.lines
    requires g in Amalg(fs, repoRoot, gitId, fs.join(sourceDir, rel1), []).included
    requires g in Amalg(fs, repoRoot, gitId, fs.join(sourceDir, rel2), []).included
    ensures var o1 := HeaderOutput(fs, sourceDir, repoRoot, gitId, rel1);
      var o2 := HeaderOutput(fs, sourceDir, repoRoot, gitId, rel2);
      && o1.Some? && o2.Some?
      && fs.realpath(f1) == g && g !in before1 && Contains(o1.value, Amalg(fs, repoRoot, gitId, f1, before1).out)
      && fs.realpath(f2) == g && g !in before2 && Contains(o2.value, Amalg(fs, repoRoot, gitId, f2, before2).out)
    ensures var d := DisplayPath(fs, g, repoRoot);
      var e1 := Amalg(fs, repoRoot, gitId, f1, before1).out;
      var e2 := Amalg(fs, repoRoot, gitId, f2, before2).out;
      && |e1| >= 4 && e1[2] == BeginMarker(d) && e1[|e1| - 1] == EndMarker(d)
      && |e2| >= 4 && e2[2] == BeginMarker(d) && e2[|e2| - 1] == EndMarker(d)
  {
    f1, before1 := ReachedFileExpanded(fs, sourceDir, repoRoot, gitId, rel1, g);
    f2, before2 := ReachedFileExpanded(fs, sourceDir, repoRoot, gitId, rel2, g);
  }
}
