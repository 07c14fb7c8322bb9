/**
 The filesystem as the amalgamator sees it. Path manipulation
 (`os.path.realpath`, `os.path.dirname`, `os.path.join`, `os.path.relpath`)
 is left uninterpreted: each is a function supplied with the filesystem, and
 nothing is assumed about it. A file is identified by its canonical path.
 */
module FileModel {

  type Path = string

  datatype FileSystem = FileSystem(
    // the lines `for line in open(path)` yields, keyed by canonical path, for every file that opens
    lines: map<Path, seq<string>>,
    // canonical paths that `os.path.exists` reports but that `open` fails on with FileNotFoundError
    vanished: set<Path>,
    realpath: Path -> Path,
    dirname: Path -> Path,
    join: (Path, Path) -> Path,
    relpath: (Path, Path) -> Path)
  {
    /** `os.path.exists(p)` */
    predicate Exists(p: Path) {
      realpath(p) in lines || realpath(p) in vanished
    }

    /** `open(p)` succeeds */
    predicate Opens(p: Path) {
      realpath(p) in lines
    }
  }
}
