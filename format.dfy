/**
 * The Markdown export formatter of the `toExport` handler: each summary line
 * is written verbatim, and one blank line is written before a non-empty line
 * whose predecessor starts with '#' (a heading) or '*' (bold or emphasis).
 *
 * `Formatted` is the specification, stated by looking back at the previous
 * input line; `FormatLines` is the handler's loop, which instead carries the
 * `jumpLine` flag from one iteration to the next, and is proved to agree.
 */
module MarkdownFormat {
  import opened Text
  import opened Lines

  /** A line that asks for a blank line after it. */
  predicate Marked(line: string) {
    StartsWith(line, "#") || StartsWith(line, "*")
  }

  /** The insertion rule: a blank line goes before line i exactly when the
      line before it is marked and line i itself is not empty. */
  predicate BlankBefore(lines: seq<string>, i: nat)
    requires i < |lines|
  {
    0 < i && Marked(lines[i - 1]) && lines[i] != ""
  }

  /** Output for the first m input lines. */
  function FormatPrefix(lines: seq<string>, m: nat): seq<string>
    requires m <= |lines|
  {
    if m == 0 then []
    else FormatPrefix(lines, m - 1)
         + (if BlankBefore(lines, m - 1) then [""] else [])
         + [lines[m - 1]]
  }

  /** The lines written to the exported file, in order. */
  function Formatted(lines: seq<string>): seq<string> {
    FormatPrefix(lines, |lines|)
  }

  /** Number of blank lines inserted among the first m input lines. */
  function Inserted(lines: seq<string>, m: nat): nat
    requires m <= |lines|
  {
    if m == 0 then 0
    else Inserted(lines, m - 1) + (if BlankBefore(lines, m - 1) then 1 else 0)
  }

  /** Output index at which input line i is written. */
  function Pos(lines: seq<string>, i: nat): nat
    requires i < |lines|
  {
    i + Inserted(lines, i + 1)
  }

  lemma {:induction false} InsertedMonotone(lines: seq<string>, k: nat, m: nat)
    requires k <= m <= |lines|
    ensures Inserted(lines, k) <= Inserted(lines, m)
    decreases m - k
  {
    if k < m {
      InsertedMonotone(lines, k, m - 1);
    }
  }

  /**
   * The layout of the output: input line i sits at index Pos(lines, i), these
   * indices are strictly increasing and start at 0 (no leading blank line),
   * consecutive ones are one apart except where a blank line was inserted,
   * which then sits right before, and the last input line is the last output
   * line. So the output is the input in order, each line verbatim, and
   * deleting the inserted blank lines gives the input back.
   */
  lemma {:induction false} FormatPrefixLayout(lines: seq<string>, m: nat)
    requires m <= |lines|
    ensures |FormatPrefix(lines, m)| == m + Inserted(lines, m)
    ensures forall i :: 0 <= i < m ==> Pos(lines, i) < |FormatPrefix(lines, m)|
    ensures forall i :: 0 <= i < m ==> FormatPrefix(lines, m)[Pos(lines, i)] == lines[i]
    ensures forall i :: 0 <= i < m && BlankBefore(lines, i) ==>
              FormatPrefix(lines, m)[Pos(lines, i) - 1] == ""
  {
    if m > 0 {
      FormatPrefixLayout(lines, m - 1);
      var prev := FormatPrefix(lines, m - 1);
      var gap: seq<string> := if BlankBefore(lines, m - 1) then [""] else [];
      var out := prev + gap + [lines[m - 1]];
      assert FormatPrefix(lines, m) == out;
      forall i | 0 <= i < m - 1
        ensures Pos(lines, i) < |prev|
      {
        InsertedMonotone(lines, i + 1, m - 1);
      }
      assert Pos(lines, m - 1) == |out| - 1;
    }
  }

  lemma FormattedLayout(lines: seq<string>)
    ensures |Formatted(lines)| == |lines| + Inserted(lines, |lines|)
    ensures forall i :: 0 <= i < |lines| ==> Pos(lines, i) < |Formatted(lines)|
    ensures forall i :: 0 <= i < |lines| ==> Formatted(lines)[Pos(lines, i)] == lines[i]
    ensures forall i :: 0 <= i < |lines| && BlankBefore(lines, i) ==>
              Formatted(lines)[Pos(lines, i) - 1] == ""
    ensures |lines| > 0 ==> Pos(lines, 0) == 0
    ensures forall i :: 0 < i < |lines| ==>
              Pos(lines, i) == Pos(lines, i - 1) + (if BlankBefore(lines, i) then 2 else 1)
    ensures |lines| > 0 ==> Pos(lines, |lines| - 1) == |Formatted(lines)| - 1
  {
    FormatPrefixLayout(lines, |lines|);
    if |lines| > 0 {
      assert Inserted(lines, 1) == Inserted(lines, 0) == 0;
    }
  }

  /** Among m >= 1 lines at most m - 1 blanks are inserted: never before the first. */
  lemma {:induction false} InsertedBound(lines: seq<string>, m: nat)
    requires 1 <= m <= |lines|
    ensures Inserted(lines, m) <= m - 1
  {
    if m > 1 {
      InsertedBound(lines, m - 1);
    }
  }

  /** For n >= 1 input lines the output has n + k lines with 0 <= k <= n - 1. */
  lemma OutputLength(lines: seq<string>)
    requires |lines| >= 1
    ensures |lines| <= |Formatted(lines)| <= 2 * |lines| - 1
  {
    FormatPrefixLayout(lines, |lines|);
    InsertedBound(lines, |lines|);
  }

  /** Every line of the output that follows a marked line is already blank. */
  lemma {:induction false} FormatPrefixSettled(lines: seq<string>, m: nat)
    requires m <= |lines|
    ensures forall i :: 0 <= i < |FormatPrefix(lines, m)| ==> !BlankBefore(FormatPrefix(lines, m), i)
  {
    if m > 0 {
      FormatPrefixSettled(lines, m - 1);
      FormatPrefixLayout(lines, m - 1);
      var prev := FormatPrefix(lines, m - 1);
      var gap: seq<string> := if BlankBefore(lines, m - 1) then [""] else [];
      var out := prev + gap + [lines[m - 1]];
      assert FormatPrefix(lines, m) == out;
      forall i | 0 <= i < |out|
        ensures !BlankBefore(out, i)
      {
        if i < |prev| {
          assert !BlankBefore(prev, i);
          assert out[i] == prev[i];
          assert 0 < i ==> out[i - 1] == prev[i - 1];
        } else if i == |prev| && 0 < i {
          assert m >= 2 && Pos(lines, m - 2) == |prev| - 1;
          assert out[i - 1] == lines[m - 2];
        }
      }
    }
  }

  /** A sequence with no insertion point formats to itself. */
  lemma {:induction false} SettledIsFixed(lines: seq<string>, m: nat)
    requires m <= |lines|
    requires forall i :: 0 <= i < |lines| ==> !BlankBefore(lines, i)
    ensures FormatPrefix(lines, m) == lines[..m]
  {
    if m > 0 {
      SettledIsFixed(lines, m - 1);
      assert lines[..m] == lines[..m - 1] + [lines[m - 1]];
    }
  }

  /** Formatting its own output inserts nothing. */
  lemma Idempotent(lines: seq<string>)
    ensures Formatted(Formatted(lines)) == Formatted(lines)
  {
    var out := Formatted(lines);
    FormatPrefixSettled(lines, |lines|);
    SettledIsFixed(out, |out|);
    assert out[..|out|] == out;
  }

  /** Two different inputs format identically, so the output alone does not
      tell an inserted blank line from one the summary already had. */
  lemma NotInjective()
    ensures Formatted(["# Title", "body"]) == ["# Title", "", "body"]
    ensures Formatted(["# Title", "", "body"]) == ["# Title", "", "body"]
  {
    var a := ["# Title", "body"];
    assert Marked(a[0]) by { assert a[0][..1] == "#"; }
    assert FormatPrefix(a, 1) == ["# Title"];
    var b := ["# Title", "", "body"];
    assert Marked(b[0]) by { assert b[0][..1] == "#"; }
    assert !Marked(b[1]);
    assert FormatPrefix(b, 2) == ["# Title", ""];
  }

  /**
   * The loop of the export handler. `jump` is the handler's `jumpLine` flag;
   * `emitted` records the arguments of each `writeLine` call and `content`
   * what the write stream has received.
   */
  method FormatLines(lines: seq<string>) returns (emitted: seq<string>, content: string)
    ensures emitted == Formatted(lines)
    ensures content == Render(emitted)
  {
    emitted, content := [], "";
    var jump := false;
    for i := 0 to |lines|
      invariant jump == (0 < i && Marked(lines[i - 1]))
      invariant emitted == FormatPrefix(lines, i)
      invariant content == Render(emitted)
    {
      if jump && lines[i] != "" {
        RenderAppend(emitted, "");
        emitted, content := emitted + [""], content + "\n" + "";
      }
      jump := StartsWith(lines[i], "#") || StartsWith(lines[i], "*");
      RenderAppend(emitted, lines[i]);
      emitted, content := emitted + [lines[i]], content + "\n" + lines[i];
    }
  }
}
