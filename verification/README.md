# SIMDe header amalgamation, modelled in Dafny

`package_simde.py` packages the SIMDe headers. For each configured top-level
header it writes one self-contained file. `amalgamate` produces that file.
It writes a two-line banner, then the header's lines between
`/* :: Begin R :: */` and `/* :: End R :: */` markers. Each local
`#include "…"` whose target exists is replaced, recursively, by that target's
own amalgamation. An `already_included` list is shared by all recursive calls
of one header. It makes every file's body appear at most once per output.

The project has six modules:

- `Sequences` (`sequences.dfy`): generic facts about sequences. They cover
  regrouping concatenations, splitting at an index, and contiguous runs
  (`Contains`).
- `FileModel` (`fs_model.dfy`): the filesystem as `amalgamate` sees it.
  - It maps canonical paths to the lines `open` yields.
  - It holds a set of paths that exist but fail to open with
    `FileNotFoundError`.
  - `realpath`, `dirname`, `join` and `relpath` are uninterpreted functions.
- `IncludePattern` (`include_pattern.dfy`): the include regular expression
  `^\s*#\s*include\s+"([^)]+)"\s$` under `re.match`. It is written as a
  deterministic matcher. Lemmas prove it complete and sound for the shape of
  line the pattern admits.
- `AmalgamationSpec` (`amalgamation_spec.dfy`): `Amalg`, the pure account of
  one call. Given the filesystem and the list on entry, it returns what the
  call writes and the list it leaves. It is mutually recursive with
  `AmalgLines` (the line loop) and `Step` (one line). Lemmas state the
  script's promises about them.
- `Amalgamator` (`amalgamator.dfy`): the imperative model.
  - `Amalgamate` writes to a `Stream` object step by step.
  - It appends to a `PathList` object in place.
  - It loops over the lines and calls itself on every resolvable include.
  - Its postconditions tie the final stream and list to `Amalg`.
- `Packaging` (`packaging.dfy`): the per-header loop of `main`. Every existing
  header gets a new stream and a new empty list.

Termination is argued from the number of readable files not yet in the list.
That number drops when the canonical path is appended, which happens before
any recursive call.

## Model

| member | source | states |
|---|---|---|
| IncludePattern.LeadingSpacesMaximal | package_simde.py:35 | a greedy `\s*` takes exactly the leading run of white space: all it takes is white space, and the next character is not |
| IncludePattern.MatchInclude | package_simde.py:35 | the recogniser itself: a captured path is never empty and never contains `)`; `MatchComplete` and `MatchSound` pin down exactly which lines match and what they capture |
| IncludePattern.MatchComplete | package_simde.py:35 | every line that is optional white space, `#`, optional white space, `include`, at least one white-space character, `"`, a non-empty path without `)`, `"`, one white-space character and optionally the final line feed matches, and the captured group is exactly that path |
| IncludePattern.MatchSound | package_simde.py:35 | conversely, every line that matches has exactly that shape, with the captured group as its path |
| IncludePattern.MatchShape | package_simde.py:35 | a matching line ends in `"` plus one white-space character, or in `"`, one white-space character and a line feed |
| IncludePattern.NoTrailingSpaceNeverMatches | package_simde.py:35 | a line that stops right after the closing quote (a last line without a line feed) is not an include |
| IncludePattern.TwoTrailingSpacesNeverMatch | package_simde.py:35 | two spaces after the closing quote, with or without the final line feed, stop the line from matching |
| IncludePattern.AngleIncludeNeverMatches | package_simde.py:35 | `#include <…>` never matches, whatever the white space around it |
| AmalgamationSpec.Slashify | package_simde.py:56 | the display path has the relpath's length, keeps every character except that each `\` becomes `/`, and contains no backslash |
| AmalgamationSpec.Classify | package_simde.py:59-62 | the decision of the loop: a line is expanded only when it matches the pattern and the captured path, joined to the including file's directory, exists, and then the target is exactly that joined path; `LineStep` gives all three branches |
| AmalgamationSpec.Amalg | package_simde.py:43-72 | one call only grows the list, leaves its own canonical path in the list, keeps the list free of duplicates, and always starts its output with the notice line and the version line |
| AmalgamationSpec.AmalgLines | package_simde.py:58-68 | the line loop only grows the list and keeps it free of duplicates |
| AmalgamationSpec.Step | package_simde.py:59-68 | one line only extends the output written so far and the list |
| AmalgamationSpec.PendingDrops | package_simde.py:52 | appending a readable path that was not yet in the list lowers the count of readable files still to expand, so the recursion ends |
| AmalgamationSpec.StepAfter | package_simde.py:58-68 | what a line writes does not depend on the output already written, only on the list |
| AmalgamationSpec.StepCopy | package_simde.py:64-68 | a line that is not an include of an existing file is appended unchanged and leaves the list as it is |
| AmalgamationSpec.StepInline | package_simde.py:60-63 | an include of an existing file appends that file's whole amalgamation, run with the current list |
| AmalgamationSpec.LinesNext | package_simde.py:58-68 | the loop over the first `i + 1` lines is the loop over the first `i` followed by what line `i` alone writes |
| AmalgamationSpec.LineStep | package_simde.py:58-68 | for the next line: no match gives a verbatim copy; a match whose joined target exists gives that target's amalgamation with the current list; a match whose target is missing gives a verbatim copy |
| AmalgamationSpec.StepCopies | package_simde.py:64-68 | a copied line extends the loop's output by exactly that line |
| AmalgamationSpec.StepInlines | package_simde.py:60-63 | an expanded include extends the loop's output by the target's amalgamation and leaves the target's list |
| AmalgamationSpec.CopiedVerbatim | package_simde.py:58-68 | lines none of which is an include of an existing file come out character for character as they went in, and the list is untouched |
| AmalgamationSpec.LinesAppend | package_simde.py:58-68 | looping over `a + b` is looping over `a` and then over `b` with the list `a` left |
| AmalgamationSpec.AmalgOpened | package_simde.py:51-69 | a first read of a readable file writes the banner, the Begin marker, the body loop's output and the End marker, and leaves the loop's list |
| AmalgamationSpec.AlreadyIncludedBannerOnly | package_simde.py:47-51 | a file already in the list produces the two banner lines and nothing else, and the list is unchanged |
| AmalgamationSpec.OpenFailureWritesDiagnostic | package_simde.py:51-72 | a file that exists but fails to open produces the banner and exactly one `/* ERROR: Could not find file … */` line with no markers, and its path stays recorded |
| AmalgamationSpec.FirstReadBracketed | package_simde.py:51-69 | on a successful first read the output is the banner, the Begin marker, the body and the End marker, the two markers name the same path, that path has no backslash, and the list starts with the old list plus the file's own path |
| AmalgamationSpec.RepeatedIncludeBannerOnly | package_simde.py:60-63 | an include whose target's canonical path is already in the list (expanded earlier in the run, recorded after a failed open, or an ancestor still being expanded, as in a cyclic include) adds only the two banner lines |
| AmalgamationSpec.FreshRunRecordsOnce | package_simde.py:51-52 | a run from an empty list records every canonical path at most once, and records the start file first |
| AmalgamationSpec.NestedExpansion | package_simde.py:43-72 | a file with one include of a not yet expanded, include-free file `g` produces: its banner and Begin marker, the lines before the include, `g`'s banner, Begin marker, lines and End marker, the lines after the include, and its own End marker |
| AmalgamationSpec.RecordedExpanded | package_simde.py:43-72 | every readable file that a call records, and that was not recorded on entry, is expanded in full inside the call's output: the output holds, as a contiguous run, what a call on that file writes when the list does not hold it yet |
| AmalgamationSpec.LinesRecorded | package_simde.py:58-68 | the same for the line loop: each readable file newly recorded by the loop has its full expansion as a contiguous run of the loop's output |
| AmalgamationSpec.StepRecorded | package_simde.py:59-63 | the same for one line: a line that records a new readable file is an include of an existing file, and its output holds that file's full expansion |
| Amalgamator.Stream.Write | package_simde.py:48 | a write appends one string to the stream |
| Amalgamator.PathList.Append | package_simde.py:52 | an append adds one path at the end of the list |
| Amalgamator.Amalgamate | package_simde.py:43-72 | the stream gains exactly the `Amalg` output and the list becomes exactly the `Amalg` list, so every property proved of `Amalg` holds for the stepwise program |
| Amalgamator.AmalgamateLines | package_simde.py:58-68 | the loop leaves the stream extended by the `AmalgLines` output and the list equal to the `AmalgLines` list |
| Amalgamator.AmalgamateLine | package_simde.py:59-68 | one pass of the loop extends the stream by what `Step` writes for that line and leaves `Step`'s list |
| Packaging.HeaderOutput | package_simde.py:115-120 | one header's output: present exactly when the header's source path exists, and then starting with the banner; `AmalgamateHeaders` and `HeaderSelfContained` tie it to the loop and to the header's full expansion |
| Packaging.AmalgamateHeaders | package_simde.py:107-122 | there is one output per configured header; output `i` is the amalgamation of header `i` from an empty list if its source exists, and is skipped otherwise |
| Packaging.AmalgamateExpected | package_simde.py:10-33 | the loop run on the 22 configured headers gives 22 outputs, output `i` being that of the `i`-th configured header |
| Packaging.HeaderSelfContained | package_simde.py:115-120 | every existing header's output starts with the banner. A readable header is always expanded, between Begin and End markers naming it, with its own path as the only list entry on entry to its loop. An unreadable one gives the error line |
| Packaging.ReachedFileExpanded | package_simde.py:118-120 | every readable file that a header's run reaches (records in its list), directly or through other includes and alongside any other includes, is expanded in full in that header's output: banner, Begin marker naming it, the loop over its lines and End marker naming it, as a contiguous run |
| Packaging.SharedIncludeExpandedInEach | package_simde.py:118-120 | two headers whose runs both reach the same readable file each hold a full expansion of it, with its Begin and End markers: no state carries over between headers |

## Left out

- The command line, the `git rev-parse` lookup and its `"unknown"` fallback are left out. The version tag is a parameter.
- Removing and creating directories, computing `dest_path`, copying `COPYING`, walking the staging tree and writing the zip archive are left out. `AmalgamateHeaders` returns each header's output instead of writing it to a file.
- Console warnings are not modelled. They do not affect any output.
- `os.path.realpath`, `dirname`, `join` and `relpath` are uninterpreted. Symbolic links, `..` and drive letters are not modelled. `os.path.exists` holds exactly for paths whose canonical form is readable or is recorded as failing to open.
- UTF-8 decoding and universal-newline translation on read are not modelled: a file is the sequence of lines it yields. The `newline='\n'` translation on write is left out too: the output is the sequence of strings written.
- `\s` stands for six ASCII characters: space, tab, line feed, vertical tab, form feed and carriage return. Python's Unicode white space beyond those is not modelled.
- Only `FileNotFoundError` from `open` is modelled, as a path that exists but does not open. Other errors would abort the whole script and are not modelled. These include `PermissionError`, `IsADirectoryError`, a `UnicodeDecodeError` in the middle of a file, and a `ValueError` from `relpath`.
- One might expect an include line to allow optional trailing white space. The pattern demands exactly one white-space character after the closing quote, optionally followed by the final line feed, and the model follows the pattern.
- The already-included record is modelled as the list the code uses, not as a set.
