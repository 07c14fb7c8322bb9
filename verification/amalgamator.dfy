/**
 The amalgamator as the source runs it: `amalgamate` writes to a stream step
 by step and appends to the shared `already_included` list in place, looping
 over the lines of the opened file and calling itself on every include it can
 resolve. Its postconditions tie the stream and the list it leaves to `Amalg`,
 the pure account of one call.
 */
module Amalgamator {
  import opened FileModel
  import opened IncludePattern
  import opened AmalgamationSpec
  import opened Sequences

  /** The output stream: everything handed to `write`, in order. */
  class Stream {
    var written: seq<string>

    constructor ()
      ensures written == []
    {
      written := [];
    }

    method Write(s: string)
      modifies this
      ensures written == old(written) + [s]
    {
      written := written + [s];
    }
  }

  /** The `already_included` list shared by every call of one run. */
  class PathList {
    var items: seq<Path>

    constructor ()
      ensures items == []
    {
      items := [];
    }

    method Append(p: Path)
      modifies this
      ensures items == old(items) + [p]
    {
      items := items + [p];
    }
  }

  /** `amalgamate(filename, stream, already_included, src_root, git_id)` */
  method Amalgamate(filename: Path, stream: Stream, alreadyIncluded: PathList, fs: FileSystem, srcRoot: Path, gitId: string)
    modifies stream, alreadyIncluded
    ensures stream.written == old(stream.written) + Amalg(fs, srcRoot, gitId, filename, old(alreadyIncluded.items)).out
    ensures alreadyIncluded.items == Amalg(fs, srcRoot, gitId, filename, old(alreadyIncluded.items)).included
    decreases Pending(fs, alreadyIncluded.items), 0
  {
    var fullPath := fs.realpath(filename);
    var srcdir := fs.dirname(fullPath);

    stream.Write(Notice);
    stream.Write(VersionLine(gitId));
    assert stream.written == old(stream.written) + Banner(gitId);

    if fullPath !in alreadyIncluded.items {
      ghost var inc := alreadyIncluded.items + [fullPath];
      alreadyIncluded.Append(fullPath);
      if fullPath in fs.lines {
        PendingDrops(fs, old(alreadyIncluded.items), fullPath);
        var inputFile := fs.lines[fullPath];
        var relPathStr := Slashify(fs.relpath(fullPath, srcRoot));
        stream.Write(BeginMarker(relPathStr));
        ghost var head := stream.written;
        assert head == old(stream.written) + (Banner(gitId) + [BeginMarker(relPathStr)]);
        AmalgamateLines(inputFile, srcdir, stream, alreadyIncluded, fs, srcRoot, gitId);
        ghost var body := AmalgLines(fs, srcRoot, gitId, srcdir, inputFile, inc);
        assert stream.written == head + body.out;
        stream.Write(EndMarker(relPathStr));
        assert stream.written == head + body.out + [EndMarker(relPathStr)];
        Assoc(old(stream.written), Banner(gitId) + [BeginMarker(relPathStr)] + body.out, [EndMarker(relPathStr)]);
        Assoc(old(stream.written), Banner(gitId) + [BeginMarker(relPathStr)], body.out);
        AmalgOpened(fs, srcRoot, gitId, filename, old(alreadyIncluded.items));
      } else {
        stream.Write(ErrorLine(filename));
        OpenFailureWritesDiagnostic(fs, srcRoot, gitId, filename, old(alreadyIncluded.items));
      }
    } else {
      AlreadyIncludedBannerOnly(fs, srcRoot, gitId, filename, old(alreadyIncluded.items));
    }
  }

  /** The `for line in input_file` loop of `amalgamate`, over the lines of
      the file just opened, with the shared list. */
  method AmalgamateLines(inputFile: seq<string>, srcdir: Path, stream: Stream, alreadyIncluded: PathList,
                         fs: FileSystem, srcRoot: Path, gitId: string)
    modifies stream, alreadyIncluded
    ensures var t := AmalgLines(fs, srcRoot, gitId, srcdir, inputFile, old(alreadyIncluded.items));
      stream.written == old(stream.written) + t.out && alreadyIncluded.items == t.included
    decreases Pending(fs, alreadyIncluded.items), 2
  {
    ghost var head := stream.written;
    ghost var inc := alreadyIncluded.items;
    for i := 0 to |inputFile|
      invariant stream.written == head + AmalgLines(fs, srcRoot, gitId, srcdir, inputFile[..i], inc).out
      invariant alreadyIncluded.items == AmalgLines(fs, srcRoot, gitId, srcdir, inputFile[..i], inc).included
    {
      ghost var done := AmalgLines(fs, srcRoot, gitId, srcdir, inputFile[..i], inc);
      ghost var s := Step(fs, srcRoot, gitId, srcdir, Trace([], done.included), inputFile[i]);
      PendingShrinks(fs, inc, done.included);
      LinesNext(fs, srcRoot, gitId, srcdir, inputFile, i, inc);
      AmalgamateLine(inputFile[i], srcdir, stream, alreadyIncluded, fs, srcRoot, gitId);
      assert stream.written == head + done.out + s.out;
      Assoc(head, done.out, s.out);
    }
    assert inputFile[..|inputFile|] == inputFile;
  }

  /** One pass of the loop in `amalgamate`: an include line whose target
      exists is expanded by a recursive call with the shared list, any other
      line is written unchanged. */
  method AmalgamateLine(sourceLine: string, srcdir: Path, stream: Stream, alreadyIncluded: PathList,
                        fs: FileSystem, srcRoot: Path, gitId: string)
    modifies stream, alreadyIncluded
    ensures var s := Step(fs, srcRoot, gitId, srcdir, Trace([], old(alreadyIncluded.items)), sourceLine);
      stream.written == old(stream.written) + s.out && alreadyIncluded.items == s.included
    decreases Pending(fs, alreadyIncluded.items), 1
  {
    ghost var start := Trace([], alreadyIncluded.items);
    match MatchInclude(sourceLine)
    case Some(p) =>
      var incPath := fs.join(srcdir, p);
      if fs.Exists(incPath) {
        StepInline(fs, srcRoot, gitId, srcdir, start, sourceLine, incPath);
        Amalgamate(incPath, stream, alreadyIncluded, fs, srcRoot, gitId);
        assert [] + Amalg(fs, srcRoot, gitId, incPath, start.included).out == Amalg(fs, srcRoot, gitId, incPath, start.included).out;
      } else {
        // a system header or a missing file: the original line is kept
        StepCopy(fs, srcRoot, gitId, srcdir, start, sourceLine);
        stream.Write(sourceLine);
      }
    case None =>
      StepCopy(fs, srcRoot, gitId, srcdir, start, sourceLine);
      stream.Write(sourceLine);
  }
}
