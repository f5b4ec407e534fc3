/**
 * The export file name of the `toExport` handler: the first summary line that
 * starts with "# " gives the title; its "# " is removed and every character
 * outside [A-Za-z0-9-] becomes a space. Without such a line the handler uses
 * a clock-derived draft name, which the model takes as a parameter.
 */
module ExportTitle {
  import opened Text

  /** A main-title line. */
  predicate IsTitleLine(line: string) {
    StartsWith(line, "# ")
  }

  /** Index of the first title line, if any (JavaScript's `Array.prototype.find`). */
  function FirstTitle(lines: seq<string>): (r: Option<nat>)
    ensures r.Some? ==> r.value < |lines| && IsTitleLine(lines[r.value])
    ensures r.Some? ==> forall j :: 0 <= j < r.value ==> !IsTitleLine(lines[j])
    ensures r.None? ==> forall j :: 0 <= j < |lines| ==> !IsTitleLine(lines[j])
  {
    if lines == [] then None
    else if IsTitleLine(lines[0]) then Some(0)
    else match FirstTitle(lines[1..])
      case None => None
      case Some(k) => Some(k + 1)
  }

  /** JavaScript's `s.replace(pattern, replacement)` with a string pattern:
      only the first occurrence is replaced. */
  function ReplaceFirst(s: string, pattern: string, replacement: string): string
    decreases |s|
  {
    if StartsWith(s, pattern) then replacement + s[|pattern|..]
    else if s == [] then s
    else [s[0]] + ReplaceFirst(s[1..], pattern, replacement)
  }

  /** A global one-character regular-expression replace, `s.replace(/c/g, d)`. */
  function ReplaceChar(s: string, c: char, d: char): (r: string)
    ensures |r| == |s|
    ensures forall k :: 0 <= k < |s| ==> r[k] == if s[k] == c then d else s[k]
  {
    if s == [] then [] else [if s[0] == c then d else s[0]] + ReplaceChar(s[1..], c, d)
  }

  /** Characters the file name keeps: the class [a-zA-Z0-9-]. */
  predicate Kept(c: char) {
    ('a' <= c <= 'z') || ('A' <= c <= 'Z') || ('0' <= c <= '9') || c == '-'
  }

  /** `s.replace(/[^a-zA-Z0-9-]/g, " ")`. */
  function Sanitize(s: string): string {
    if s == [] then [] else [if Kept(s[0]) then s[0] else ' '] + Sanitize(s[1..])
  }

  lemma {:induction false} SanitizeAt(s: string)
    ensures |Sanitize(s)| == |s|
    ensures forall k :: 0 <= k < |s| ==> Sanitize(s)[k] == if Kept(s[k]) then s[k] else ' '
  {
    if s != [] {
      SanitizeAt(s[1..]);
    }
  }

  /** The title chain of the handler, step by step as written. */
  function FileTitle(line: string): string {
    Sanitize(ReplaceChar(ReplaceFirst(line, "# ", ""), ' ', ' '))
  }

  /**
   * For a title line the file title is the line minus its "# ", same length,
   * with every character outside [A-Za-z0-9-] turned into a space; so it holds
   * only such characters and spaces. The space-for-space replace changes nothing.
   */
  lemma TitleShape(line: string)
    requires IsTitleLine(line)
    ensures |FileTitle(line)| == |line| - 2
    ensures forall k :: 0 <= k < |line| - 2 ==>
              FileTitle(line)[k] == if Kept(line[k + 2]) then line[k + 2] else ' '
    ensures forall k :: 0 <= k < |FileTitle(line)| ==>
              Kept(FileTitle(line)[k]) || FileTitle(line)[k] == ' '
  {
    var dropped := ReplaceFirst(line, "# ", "");
    assert dropped == line[2..];
    var spaced := ReplaceChar(dropped, ' ', ' ');
    assert spaced == line[2..];
    SanitizeAt(spaced);
  }

  /** The name before ".md": the first title line's file title, else `draftName`. */
  function ExportName(lines: seq<string>, draftName: string): string {
    match FirstTitle(lines)
    case Some(j) => FileTitle(lines[j])
    case None => draftName
  }

  /** The name is derived from the first title line when there is one: that
      line minus its "# ", with every character outside [A-Za-z0-9-] turned
      into a space. It is the draft name exactly when there is none. */
  lemma ExportNameSource(lines: seq<string>, draftName: string)
    ensures (exists j :: 0 <= j < |lines| && IsTitleLine(lines[j])) <==> FirstTitle(lines).Some?
    ensures FirstTitle(lines).None? ==> ExportName(lines, draftName) == draftName
    ensures FirstTitle(lines).Some? ==>
              |ExportName(lines, draftName)| == |lines[FirstTitle(lines).value]| - 2
    ensures FirstTitle(lines).Some? ==>
              forall k :: 0 <= k < |lines[FirstTitle(lines).value]| - 2 ==>
                ExportName(lines, draftName)[k] ==
                  if Kept(lines[FirstTitle(lines).value][k + 2])
                  then lines[FirstTitle(lines).value][k + 2] else ' '
    ensures FirstTitle(lines).Some? ==>
              forall k :: 0 <= k < |ExportName(lines, draftName)| ==>
                Kept(ExportName(lines, draftName)[k]) || ExportName(lines, draftName)[k] == ' '
  {
    match FirstTitle(lines)
    case Some(j) => TitleShape(lines[j]);
    case None =>
  }

  /** The file name written to disk: the name plus ".md". */
  function TargetName(lines: seq<string>, draftName: string): string {
    ExportName(lines, draftName) + ".md"
  }
}
