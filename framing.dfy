/** The line framing of processMessage (src/cli/runner.ts, and verbatim in
    src/cli/run/vm-runner.ts): the buffer is split on `/\r?\n/`, the last
    piece is kept back as the unterminated remainder, blank lines are
    dropped, and every other line is parsed; a line that does not parse is
    skipped. */
module Framing {
  import opened Text
  import opened Wrappers

  /** One trailing carriage return removed: the `\r?` of `/\r?\n/`. */
  function DropCR(line: string): (r: string)
    ensures r == line || (line == r + "\r")
    ensures |line| > 0 && line[|line| - 1] == '\r' ==> r == line[..|line| - 1]
  {
    if |line| > 0 && line[|line| - 1] == '\r' then line[..|line| - 1] else line
  }

  function DropCRAll(pieces: seq<string>): (r: seq<string>)
    ensures |r| == |pieces| && forall i :: 0 <= i < |pieces| ==> r[i] == DropCR(pieces[i])
  {
    seq(|pieces|, i requires 0 <= i < |pieces| => DropCR(pieces[i]))
  }

  lemma DropCRCons(p: string, ps: seq<string>)
    ensures DropCRAll([p] + ps) == [DropCR(p)] + DropCRAll(ps)
  {
  }

  /** The pieces of `buf.split(/\r?\n/)` that were followed by a line break. */
  function CompleteLines(buf: string): seq<string> {
    DropCRAll(Init(Split(buf, '\n')))
  }

  /** `lines.pop()`: the piece after the last line break. */
  function Remainder(buf: string): string {
    Last(Split(buf, '\n'))
  }

  function OptionSeq<M>(o: Option<M>): seq<M> {
    match o
    case None => []
    case Some(m) => [m]
  }

  /** The messages of the lines that parse, in the order of the lines. */
  function ParseAll<M>(lines: seq<string>, parse: string -> Option<M>): (ms: seq<M>)
    ensures |ms| <= |lines|
  {
    if lines == [] then []
    else ParseAll(lines[..|lines| - 1], parse) + OptionSeq(parse(lines[|lines| - 1]))
  }

  /** What one framing pass hands to `send`. */
  function Forwarded<M>(buf: string, parse: string -> Option<M>): seq<M> {
    ParseAll(NonEmpty(CompleteLines(buf)), parse)
  }

  lemma InitConcat(p: seq<string>, q: seq<string>)
    requires |q| >= 1
    ensures Init(p + q) == p + Init(q) && Last(p + q) == Last(q)
  {
    assert (p + q)[..|p + q| - 1] == p + q[..|q| - 1];
  }

  lemma {:induction false} ParseAllConcat<M>(a: seq<string>, b: seq<string>, parse: string -> Option<M>)
    ensures ParseAll(a + b, parse) == ParseAll(a, parse) + ParseAll(b, parse)
    decreases |b|
  {
    if b == [] {
      assert a + b == a;
    } else {
      var ab := a + b;
      var front := b[..|b| - 1];
      var last := OptionSeq(parse(b[|b| - 1]));
      assert ab[..|ab| - 1] == a + front;
      assert ab[|ab| - 1] == b[|b| - 1];
      assert ParseAll(ab, parse) == ParseAll(a + front, parse) + last;
      assert ParseAll(b, parse) == ParseAll(front, parse) + last;
      ParseAllConcat(a, front, parse);
      assert ParseAll(ab, parse) == (ParseAll(a, parse) + ParseAll(front, parse)) + last;
    }
  }

  /** The lines of the buffer and its remainder are the buffer, cut at its
      line breaks: nothing is lost and the remainder has no line break. */
  lemma FramingLosesNothing(buf: string)
    ensures Join(Init(Split(buf, '\n')) + [Remainder(buf)], '\n') == buf
    ensures '\n' !in Remainder(buf)
    ensures forall l :: l in CompleteLines(buf) ==> '\n' !in l
  {
    var ps := Split(buf, '\n');
    assert Init(ps) + [Last(ps)] == ps;
    JoinSplit(buf, '\n');
    SplitPiecesLackSep(buf, '\n');
    assert Last(ps) in ps;
    forall l | l in CompleteLines(buf)
      ensures '\n' !in l
    {
      var i :| 0 <= i < |CompleteLines(buf)| && CompleteLines(buf)[i] == l;
      assert ps[i] in ps;
    }
  }

  /** Feeding the buffer in two chunks hands the same messages to `send`, in
      the same order, and leaves the same remainder as feeding it at once. */
  lemma ChunkingInvariant<M>(buf: string, a: string, b: string, parse: string -> Option<M>)
    ensures Remainder(Remainder(buf + a) + b) == Remainder(buf + a + b)
    ensures Forwarded(buf + a, parse) + Forwarded(Remainder(buf + a) + b, parse)
         == Forwarded(buf + a + b, parse)
  {
    var x := buf + a;
    var p := Split(x, '\n');
    var q := Split(Last(p) + b, '\n');
    SplitConcat(x, b, '\n');
    assert Split(x + b, '\n') == Init(p) + q;
    InitConcat(Init(p), q);
    assert DropCRAll(Init(p) + Init(q)) == DropCRAll(Init(p)) + DropCRAll(Init(q));
    assert CompleteLines(x + b) == CompleteLines(x) + CompleteLines(Last(p) + b);
    NonEmptyConcat(CompleteLines(x), CompleteLines(Last(p) + b));
    ParseAllConcat(NonEmpty(CompleteLines(x)), NonEmpty(CompleteLines(Last(p) + b)), parse);
  }

  /** A line ended by `\r\n` is framed without its carriage return. */
  lemma CrLfLine(line: string, rest: string)
    requires '\n' !in line
    ensures CompleteLines(line + "\r\n" + rest) == [line] + CompleteLines(rest)
    ensures Remainder(line + "\r\n" + rest) == Remainder(rest)
  {
    var p := line + "\r";
    assert line + "\r\n" + rest == p + ['\n'] + rest;
    assert '\n' !in p by {
      assert forall i :: 0 <= i < |line| ==> p[i] == line[i];
    }
    SplitAfterPiece(p, rest, '\n');
    var q := Split(rest, '\n');
    InitConcat([p], q);
    assert DropCR(p) == line by {
      assert p[..|p| - 1] == line;
    }
    DropCRCons(p, Init(q));
  }

  /** A line ended by a bare `\n` is framed as it is. */
  lemma LfLine(line: string, rest: string)
    requires '\n' !in line && (line == [] || line[|line| - 1] != '\r')
    ensures CompleteLines(line + "\n" + rest) == [line] + CompleteLines(rest)
    ensures Remainder(line + "\n" + rest) == Remainder(rest)
  {
    SplitAfterPiece(line, rest, '\n');
    var q := Split(rest, '\n');
    InitConcat([line], q);
    DropCRCons(line, Init(q));
  }

  /** Text without a line break is only carried over. */
  lemma NoLineBreak(buf: string)
    requires '\n' !in buf
    ensures CompleteLines(buf) == [] && Remainder(buf) == buf
  {
    SplitWithoutSep(buf, '\n');
  }

  /** Blank lines are dropped without affecting the others. */
  lemma BlankLineDropped(before: seq<string>, after: seq<string>)
    ensures NonEmpty(before + [""] + after) == NonEmpty(before) + NonEmpty(after)
  {
    NonEmptyConcat(before + [""], after);
    NonEmptyConcat(before, [""]);
  }

  /** A line that does not parse is skipped without affecting the others. */
  lemma MalformedLineSkipped<M>(before: seq<string>, bad: string, after: seq<string>, parse: string -> Option<M>)
    requires parse(bad).None?
    ensures ParseAll(before + [bad] + after, parse) == ParseAll(before, parse) + ParseAll(after, parse)
  {
    ParseAllConcat(before + [bad], after, parse);
    ParseAllConcat(before, [bad], parse);
    ParseOne(bad, parse);
  }

  lemma ParseAllSnoc<M>(lines: seq<string>, line: string, parse: string -> Option<M>)
    ensures ParseAll(lines + [line], parse) == ParseAll(lines, parse) + OptionSeq(parse(line))
  {
    assert (lines + [line])[..|lines|] == lines;
  }

  /** One more line of a prefix parsed. */
  lemma ParseAllStep<M>(lines: seq<string>, i: nat, parse: string -> Option<M>)
    requires i < |lines|
    ensures ParseAll(lines[..i + 1], parse) == ParseAll(lines[..i], parse) + OptionSeq(parse(lines[i]))
  {
    assert lines[..i + 1] == lines[..i] + [lines[i]];
    ParseAllSnoc(lines[..i], lines[i], parse);
  }

  lemma ParseOne<M>(line: string, parse: string -> Option<M>)
    ensures ParseAll([line], parse) == OptionSeq(parse(line))
  {
    assert [line][..0] == [];
  }

  /** When every line parses, each is forwarded, in order. */
  lemma {:induction false} AllParse<M>(lines: seq<string>, parse: string -> Option<M>)
    requires forall i :: 0 <= i < |lines| ==> parse(lines[i]).Some?
    ensures var ms := ParseAll(lines, parse);
      |ms| == |lines| && forall i :: 0 <= i < |lines| ==> Some(ms[i]) == parse(lines[i])
  {
    if lines != [] {
      AllParse(lines[..|lines| - 1], parse);
    }
  }
}
