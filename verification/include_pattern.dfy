/**
 The recogniser for local include directives used by the amalgamator: the
 regular expression `^\s*#\s*include\s+"([^)]+)"\s$`, applied with Python's
 `re.match` to one line as read from a header (the line keeps its line feed).

 Every `\s*` and `\s+` of the pattern is followed by a literal that is not
 white space, so each of them takes exactly the run of white space in front of
 it. After the opening quote the line must end in `"` plus one white-space
 character, optionally followed by the final line feed (`$` also matches just
 before a final line feed). The captured path is everything in between: at
 least one character and no `)`; quotes and white space are allowed in it.
 */
module IncludePattern {
  import opened Sequences

  datatype Option<+T> = None | Some(value: T)

  /** The characters `\s` stands for in this model: space, tab, line feed,
      vertical tab, form feed and carriage return. */
  predicate IsSpace(c: char) {
    c == ' ' || c == '\t' || c == '\n' || c == '\U{000B}' || c == '\U{000C}' || c == '\r'
  }

  predicate AllSpaces(s: string) {
    forall i :: 0 <= i < |s| ==> IsSpace(s[i])
  }

  /** How many characters a greedy `\s*` takes from the front of `s`. */
  function LeadingSpaces(s: string): (n: nat)
    ensures n <= |s|
  {
    if |s| > 0 && IsSpace(s[0]) then 1 + LeadingSpaces(s[1..]) else 0
  }

  /** `\s*` takes the longest run of white space at the front. */
  lemma {:induction false} LeadingSpacesMaximal(s: string)
    ensures AllSpaces(s[..LeadingSpaces(s)])
    ensures LeadingSpaces(s) == |s| || !IsSpace(s[LeadingSpaces(s)])
  {
    if |s| > 0 && IsSpace(s[0]) {
      LeadingSpacesMaximal(s[1..]);
      assert s[..LeadingSpaces(s)] == [s[0]] + s[1..][..LeadingSpaces(s[1..])];
    }
  }

  /** What remains of `s` once a greedy `\s*` has taken its leading white space. */
  function AfterSpaces(s: string): string
  {
    s[LeadingSpaces(s)..]
  }

  /** The path captured by the include pattern, or None when `line` does not match. */
  function MatchInclude(line: string): (r: Option<string>)
    ensures r.Some? ==> |r.value| > 0 && ')' !in r.value
  {
    MatchHash(AfterSpaces(line))
  }

  /** The pattern from `#` on: `#\s*include\s+"([^)]+)"\s$`. */
  function MatchHash(s: string): Option<string>
  {
    if |s| == 0 || s[0] != '#' then None else MatchKeyword(AfterSpaces(s[1..]))
  }

  /** The pattern from the keyword on: `include\s+"([^)]+)"\s$`. */
  function MatchKeyword(s: string): Option<string>
  {
    if |s| < 7 || s[..7] != "include" then None else MatchGap(s[7..])
  }

  /** The pattern from the white space after the keyword on: `\s+"([^)]+)"\s$`. */
  function MatchGap(s: string): Option<string>
  {
    var gap := LeadingSpaces(s);
    if gap == 0 then None else MatchQuote(s[gap..])
  }

  /** The pattern from the opening quote on: `"([^)]+)"\s$`. */
  function MatchQuote(s: string): Option<string>
  {
    if |s| == 0 || s[0] != '"' then None else QuotedTarget(s[1..])
  }

  /** The part of the pattern after the opening quote, `([^)]+)"\s$`. */
  function QuotedTarget(r: string): (q: Option<string>)
    ensures q.Some? ==> |q.value| > 0 && ')' !in q.value
  {
    var n := |r|;
    if n >= 3 && r[n - 2] == '"' && IsSpace(r[n - 1]) && ')' !in r[..n - 2] then
      Some(r[..n - 2])
    else if n >= 4 && r[n - 1] == '\n' && r[n - 3] == '"' && IsSpace(r[n - 2]) && ')' !in r[..n - 3] then
      Some(r[..n - 3])
    else
      None
  }

  /** The end of a directive line from the opening quote on: the quoted
      path, one white-space character and an optional final line feed. */
  function QuotedTail(path: string, close: char, eol: string): string
  {
    "\"" + (path + ("\"" + ([close] + eol)))
  }

  /** A directive line assembled from its parts: leading white space, `#`,
      white space, `include`, white space and the quoted tail. */
  function DirectiveLine(lead: string, mid: string, gap: string, path: string, close: char, eol: string): string
  {
    lead + ("#" + (mid + ("include" + (gap + QuotedTail(path, close, eol)))))
  }

  /** The parts that the pattern admits. */
  predicate WellFormedParts(lead: string, mid: string, gap: string, path: string, close: char, eol: string)
  {
    && AllSpaces(lead) && AllSpaces(mid) && AllSpaces(gap) && |gap| > 0
    && TailParts(path, close, eol)
  }

  predicate TailParts(path: string, close: char, eol: string)
  {
    |path| > 0 && ')' !in path && IsSpace(close) && (eol == "" || eol == "\n")
  }

  /** A greedy `\s*` in front of a character that is not white space takes
      exactly the white space before it. */
  lemma {:induction false} AfterSpacesOf(ws: string, rest: string)
    requires AllSpaces(ws)
    requires |rest| > 0 && !IsSpace(rest[0])
    ensures LeadingSpaces(ws + rest) == |ws|
    ensures AfterSpaces(ws + rest) == rest
  {
    if ws != [] {
      assert (ws + rest)[1..] == ws[1..] + rest;
      AfterSpacesOf(ws[1..], rest);
    }
  }

  lemma QuotedTargetOf(path: string, close: char, eol: string)
    requires TailParts(path, close, eol)
    ensures QuotedTarget(path + ("\"" + ([close] + eol))) == Some(path)
  {
    var r := path + ("\"" + ([close] + eol));
    var n := |r|;
    if eol == "" {
      assert r[n - 2] == '"' && r[n - 1] == close;
      assert r[..n - 2] == path;
    } else {
      assert r[n - 2] == close && r[n - 3] == '"' && r[n - 1] == '\n';
      assert r[..n - 3] == path;
    }
  }

  lemma QuotedTargetSound(r: string) returns (close: char, eol: string)
    requires QuotedTarget(r).Some?
    ensures TailParts(QuotedTarget(r).value, close, eol)
    ensures r == QuotedTarget(r).value + ("\"" + ([close] + eol))
  {
    var n := |r|;
    if n >= 3 && r[n - 2] == '"' && IsSpace(r[n - 1]) && ')' !in r[..n - 2] {
      close, eol := r[n - 1], "";
      assert r == r[..n - 2] + ("\"" + ([close] + eol));
    } else {
      close, eol := r[n - 2], "\n";
      assert r == r[..n - 3] + ("\"" + ([close] + eol));
    }
  }

  lemma MatchQuoteOf(path: string, close: char, eol: string)
    requires TailParts(path, close, eol)
    ensures MatchQuote(QuotedTail(path, close, eol)) == Some(path)
  {
    assert QuotedTail(path, close, eol)[1..] == path + ("\"" + ([close] + eol));
    QuotedTargetOf(path, close, eol);
  }

  lemma MatchGapOf(gap: string, path: string, close: char, eol: string)
    requires AllSpaces(gap) && |gap| > 0 && TailParts(path, close, eol)
    ensures MatchGap(gap + QuotedTail(path, close, eol)) == Some(path)
  {
    AfterSpacesOf(gap, QuotedTail(path, close, eol));
    assert (gap + QuotedTail(path, close, eol))[|gap|..] == QuotedTail(path, close, eol);
    MatchQuoteOf(path, close, eol);
  }

  lemma MatchKeywordOf(mid: string, gap: string, path: string, close: char, eol: string)
    requires AllSpaces(mid) && AllSpaces(gap) && |gap| > 0 && TailParts(path, close, eol)
    ensures MatchHash("#" + (mid + ("include" + (gap + QuotedTail(path, close, eol))))) == Some(path)
  {
    var rest := gap + QuotedTail(path, close, eol);
    var keyword := "include" + rest;
    var hash := "#" + (mid + keyword);
    assert hash[1..] == mid + keyword;
    AfterSpacesOf(mid, keyword);
    assert keyword[..7] == "include" && keyword[7..] == rest;
    MatchGapOf(gap, path, close, eol);
  }

  /** Every line of the admitted shape matches, and the captured group is its path. */
  lemma MatchComplete(lead: string, mid: string, gap: string, path: string, close: char, eol: string)
    requires WellFormedParts(lead, mid, gap, path, close, eol)
    ensures MatchInclude(DirectiveLine(lead, mid, gap, path, close, eol)) == Some(path)
  {
    var hash := "#" + (mid + ("include" + (gap + QuotedTail(path, close, eol))));
    AfterSpacesOf(lead, hash);
    MatchKeywordOf(mid, gap, path, close, eol);
  }

  lemma MatchGapSound(s: string) returns (gap: string, close: char, eol: string)
    requires MatchGap(s).Some?
    ensures AllSpaces(gap) && |gap| > 0 && TailParts(MatchGap(s).value, close, eol)
    ensures s == gap + QuotedTail(MatchGap(s).value, close, eol)
  {
    var g := LeadingSpaces(s);
    LeadingSpacesMaximal(s);
    gap := s[..g];
    var quoted := s[g..];
    var r := quoted[1..];
    close, eol := QuotedTargetSound(r);
    SplitAt(quoted, 1);
    assert quoted[..1] == "\"";
    SplitAt(s, g);
  }

  lemma MatchKeywordSound(s: string) returns (gap: string, close: char, eol: string)
    requires MatchKeyword(s).Some?
    ensures AllSpaces(gap) && |gap| > 0 && TailParts(MatchKeyword(s).value, close, eol)
    ensures s == "include" + (gap + QuotedTail(MatchKeyword(s).value, close, eol))
  {
    gap, close, eol := MatchGapSound(s[7..]);
    assert s == s[..7] + s[7..];
  }

  lemma MatchHashSound(s: string) returns (mid: string, gap: string, close: char, eol: string)
    requires MatchHash(s).Some?
    ensures AllSpaces(mid) && AllSpaces(gap) && |gap| > 0 && TailParts(MatchHash(s).value, close, eol)
    ensures s == "#" + (mid + ("include" + (gap + QuotedTail(MatchHash(s).value, close, eol))))
  {
    var keyword := AfterSpaces(s[1..]);
    LeadingSpacesMaximal(s[1..]);
    mid := s[1..][..LeadingSpaces(s[1..])];
    assert s[1..] == mid + keyword;
    assert s == "#" + (mid + keyword);
    gap, close, eol := MatchKeywordSound(keyword);
  }

  /** Every line that matches has the admitted shape, with the captured path in it. */
  lemma MatchSound(line: string) returns (lead: string, mid: string, gap: string, close: char, eol: string)
    requires MatchInclude(line).Some?
    ensures WellFormedParts(lead, mid, gap, MatchInclude(line).value, close, eol)
    ensures line == DirectiveLine(lead, mid, gap, MatchInclude(line).value, close, eol)
  {
    var a := LeadingSpaces(line);
    var rest := line[a..];
    assert MatchInclude(line) == MatchHash(rest);
    lead := line[..a];
    assert AllSpaces(lead) by {
      LeadingSpacesMaximal(line);
    }
    SplitAt(line, a);
    mid, gap, close, eol := MatchHashSound(rest);
  }

  /** The last characters of a line the pattern can match: `"` and one
      white-space character, or `"`, one white-space character and a line feed. */
  predicate EndsAsInclude(line: string) {
    var n := |line|;
    && n >= 3
    && (|| (line[n - 2] == '"' && IsSpace(line[n - 1]))
        || (line[n - 1] == '\n' && line[n - 3] == '"' && IsSpace(line[n - 2])))
  }

  /** A matching line ends in `"` and one white-space character, or in `"`,
      one white-space character and a line feed. */
  lemma MatchShape(line: string)
    requires MatchInclude(line).Some?
    ensures EndsAsInclude(line)
  {
    var lead, mid, gap, close, eol := MatchSound(line);
    var path := MatchInclude(line).value;
    var front := lead + ("#" + (mid + ("include" + (gap + ("\"" + path)))));
    DirectiveFront(lead, mid, gap, path, close, eol);
    TailEnds(front, close, eol);
  }

  lemma DirectiveFront(lead: string, mid: string, gap: string, path: string, close: char, eol: string)
    ensures DirectiveLine(lead, mid, gap, path, close, eol)
         == lead + ("#" + (mid + ("include" + (gap + ("\"" + path))))) + ("\"" + ([close] + eol))
  {
    var tail := "\"" + ([close] + eol);
    Assoc("\"", path, tail);
    Assoc(gap, "\"" + path, tail);
    Assoc("include", gap + ("\"" + path), tail);
    Assoc(mid, "include" + (gap + ("\"" + path)), tail);
    Assoc("#", mid + ("include" + (gap + ("\"" + path))), tail);
    Assoc(lead, "#" + (mid + ("include" + (gap + ("\"" + path)))), tail);
  }

  lemma TailEnds(front: string, close: char, eol: string)
    requires |front| > 0 && IsSpace(close) && (eol == "" || eol == "\n")
    ensures EndsAsInclude(front + ("\"" + ([close] + eol)))
  {
    var line := front + ("\"" + ([close] + eol));
    var n := |line|;
    if eol == "" {
      assert line[n - 2] == '"' && line[n - 1] == close;
    } else {
      assert line[n - 3] == '"' && line[n - 2] == close && line[n - 1] == '\n';
    }
  }

  /** A last line that stops right after the closing quote (no white space, no
      line feed) is not an include. */
  lemma NoTrailingSpaceNeverMatches(line: string)
    requires |line| > 0 && line[|line| - 1] == '"'
    ensures MatchInclude(line).None?
  {
    assert !EndsAsInclude(line);
    if MatchInclude(line).Some? {
      MatchShape(line);
    }
  }

  /** Two spaces after the closing quote, with or without the final line feed,
      make a line that is not an include. */
  lemma TwoTrailingSpacesNeverMatch(front: string, eol: string)
    requires eol == "" || eol == "\n"
    ensures MatchInclude(front + ("\"  " + eol)).None?
  {
    var line := front + ("\"  " + eol);
    TwoSpacesEnding(front, eol);
    if MatchInclude(line).Some? {
      MatchShape(line);
    }
  }

  lemma TwoSpacesEnding(front: string, eol: string)
    requires eol == "" || eol == "\n"
    ensures !EndsAsInclude(front + ("\"  " + eol))
  {
    var line := front + ("\"  " + eol);
    var n := |line|;
    assert line[n - 1 - |eol|] == ' ' && line[n - 2 - |eol|] == ' ';
    assert eol == "\n" ==> line[n - 1] == '\n';
    assert eol == "" ==> line[n - 1] != '\n';
  }

  /** A directive naming its header in angle brackets is never an include here. */
  lemma AngleIncludeNeverMatches(lead: string, mid: string, gap: string, rest: string)
    requires AllSpaces(lead) && AllSpaces(mid) && AllSpaces(gap)
    ensures MatchInclude(lead + ("#" + (mid + ("include" + (gap + ("<" + rest)))))).None?
  {
    var angle := "<" + rest;
    var keyword := "include" + (gap + angle);
    var hash := "#" + (mid + keyword);
    AfterSpacesOf(lead, hash);
    assert hash[1..] == mid + keyword;
    AfterSpacesOf(mid, keyword);
    assert keyword[..7] == "include" && keyword[7..] == gap + angle;
    AfterSpacesOf(gap, angle);
    assert (gap + angle)[|gap|..] == angle;
  }
}
