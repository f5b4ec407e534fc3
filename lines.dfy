/**
 * Line handling of the export handler: splitting
 * a summary on newlines (JavaScript's `String.prototype.split("\n")`), the
 * inverse join, and the stream content produced by writing each line as
 * "\n" + line.
 */
module Lines {

  /** Split `s` at every '\n'. Like JavaScript, the result is never empty:
      the empty string splits into [""] and a trailing '\n' yields a final "". */
  function Split(s: string): (r: seq<string>)
    ensures |r| >= 1
    decreases |s|
  {
    if s == [] then [""]
    else
      var rest := Split(s[1..]);
      if s[0] == '\n' then [""] + rest
      else [[s[0]] + rest[0]] + rest[1..]
  }

  /** Glue pieces together with '\n' between consecutive ones. */
  function Join(pieces: seq<string>): string
    requires |pieces| >= 1
  {
    if |pieces| == 1 then pieces[0]
    else pieces[0] + "\n" + Join(pieces[1..])
  }

  /** No piece holds a newline character. */
  ghost predicate NewlineFree(pieces: seq<string>) {
    forall i :: 0 <= i < |pieces| ==> '\n' !in pieces[i]
  }

  /** Splitting then joining gives back the original text. */
  lemma {:induction false} JoinSplit(s: string)
    ensures Join(Split(s)) == s
    decreases |s|
  {
    if s != [] {
      var rest := Split(s[1..]);
      JoinSplit(s[1..]);
      assert s == [s[0]] + s[1..];
      if s[0] == '\n' {
        assert Split(s) == [""] + rest;
        assert ([""] + rest)[1..] == rest;
      } else {
        JoinConsHead(s[0], rest);
      }
    }
  }

  /** Putting a character in front of the first piece puts it in front of the join. */
  lemma {:induction false} JoinConsHead(c: char, pieces: seq<string>)
    requires |pieces| >= 1
    ensures Join([[c] + pieces[0]] + pieces[1..]) == [c] + Join(pieces)
  {
    var head := [c] + pieces[0];
    var joined := [head] + pieces[1..];
    if |pieces| > 1 {
      var tail := Join(pieces[1..]);
      assert joined[1..] == pieces[1..];
      assert Join(joined) == head + "\n" + tail;
      assert Join(pieces) == pieces[0] + "\n" + tail;
      assert head + "\n" + tail == [c] + (pieces[0] + "\n" + tail);
    } else {
      assert Join(joined) == head;
    }
  }

  /** No piece of a split holds a newline. */
  lemma {:induction false} SplitNewlineFree(s: string)
    ensures NewlineFree(Split(s))
    decreases |s|
  {
    if s != [] {
      SplitNewlineFree(s[1..]);
    }
  }

  /** Splitting undoes joining, as long as no piece holds a newline. */
  lemma {:induction false} SplitJoin(pieces: seq<string>)
    requires |pieces| >= 1 && NewlineFree(pieces)
    ensures Split(Join(pieces)) == pieces
    decreases |Join(pieces)|, |pieces|
  {
    if |pieces| == 1 {
      SplitNoNewline(pieces[0]);
    } else {
      var tail := pieces[1..];
      SplitJoin(tail);
      SplitAcross(pieces[0], Join(tail));
    }
  }

  /** A newline-free string splits into itself alone. */
  lemma {:induction false} SplitNoNewline(s: string)
    requires '\n' !in s
    ensures Split(s) == [s]
    decreases |s|
  {
    if s != [] {
      assert '\n' !in s[1..] by {
        forall k | 0 <= k < |s| - 1 ensures s[1..][k] != '\n' { assert s[1..][k] == s[k + 1]; }
      }
      SplitNoNewline(s[1..]);
      assert s == [s[0]] + s[1..];
    }
  }

  /** Splitting `a + "\n" + b` with a newline-free `a` puts `a` first. */
  lemma {:induction false} SplitAcross(a: string, b: string)
    requires '\n' !in a
    ensures Split(a + "\n" + b) == [a] + Split(b)
    decreases |a|
  {
    var s := a + "\n" + b;
    if a == [] {
      assert s == "\n" + b;
      assert s[1..] == b;
    } else {
      assert '\n' !in a[1..] by {
        forall k | 0 <= k < |a| - 1 ensures a[1..][k] != '\n' { assert a[1..][k] == a[k + 1]; }
      }
      SplitAcross(a[1..], b);
      assert s[1..] == a[1..] + "\n" + b;
      assert s[0] == a[0];
      assert [a[0]] + a[1..] == a;
    }
  }

  /** What the write stream receives when every line is written as "\n" + line. */
  function Render(lines: seq<string>): string
  {
    if lines == [] then "" else "\n" + lines[0] + Render(lines[1..])
  }

  /** Writing one more line appends "\n" + line to the stream. */
  lemma {:induction false} RenderAppend(lines: seq<string>, line: string)
    ensures Render(lines + [line]) == Render(lines) + "\n" + line
  {
    if lines != [] {
      assert (lines + [line])[1..] == lines[1..] + [line];
      RenderAppend(lines[1..], line);
    }
  }

  /** A non-empty rendering is a leading newline followed by the lines joined with newlines. */
  lemma {:induction false} RenderIsJoin(lines: seq<string>)
    requires |lines| >= 1
    ensures Render(lines) == "\n" + Join(lines)
  {
    if |lines| > 1 {
      RenderIsJoin(lines[1..]);
    }
  }
}
