/** The few ECMAScript string operations the runner relies on: `startsWith`,
    `includes`, `split` on a one-character separator, `Array.prototype.join`,
    `trim` and `toLowerCase`, on strings modelled as sequences of characters. */
module Text {

  /** `s.startsWith(prefix)`. */
  predicate StartsWith(s: string, prefix: string) {
    |prefix| <= |s| && s[..|prefix|] == prefix
  }

  /** `sub` occurs in `s` starting at position `i`. */
  ghost predicate OccursAt(s: string, sub: string, i: int) {
    0 <= i <= |s| - |sub| && s[i..i + |sub|] == sub
  }

  /** `s.includes(sub)`: true exactly when `sub` occurs somewhere in `s`. */
  function Contains(s: string, sub: string): (r: bool)
    ensures r <==> exists i :: OccursAt(s, sub, i)
    decreases |s|
  {
    if |sub| > |s| then false
    else if s[..|sub|] == sub then
      assert OccursAt(s, sub, 0);
      true
    else
      var r := Contains(s[1..], sub);
      assert r ==> exists i :: OccursAt(s, sub, i) by {
        if r {
          var i :| OccursAt(s[1..], sub, i);
          assert s[1..][i..i + |sub|] == s[i + 1..i + 1 + |sub|];
          assert OccursAt(s, sub, i + 1);
        }
      }
      assert (exists i :: OccursAt(s, sub, i)) ==> r by {
        if exists i :: OccursAt(s, sub, i) {
          var i :| OccursAt(s, sub, i);
          assert i != 0;
          assert s[1..][i - 1..i - 1 + |sub|] == s[i..i + |sub|];
          assert OccursAt(s[1..], sub, i - 1);
        }
      }
      r
  }

  function Last(parts: seq<string>): string
    requires |parts| >= 1
  {
    parts[|parts| - 1]
  }

  function Init(parts: seq<string>): seq<string>
    requires |parts| >= 1
  {
    parts[..|parts| - 1]
  }

  /** `s.split(sep)` for a one-character separator: the pieces between
      consecutive separators, so there is always one more piece than there
      are separators (`"".split(",")` is `[""]`). */
  function Split(s: string, sep: char): (parts: seq<string>)
    ensures |parts| >= 1
  {
    if s == [] then [""]
    else
      var rest := Split(s[1..], sep);
      if s[0] == sep then [""] + rest else [[s[0]] + rest[0]] + rest[1..]
  }

  /** `parts.join(sep)`. */
  function Join(parts: seq<string>, sep: char): string {
    if |parts| == 0 then ""
    else if |parts| == 1 then parts[0]
    else parts[0] + [sep] + Join(parts[1..], sep)
  }

  lemma JoinConsChar(c: char, head: string, tail: seq<string>, sep: char)
    ensures Join([[c] + head] + tail, sep) == [c] + Join([head] + tail, sep)
  {
    if |tail| > 0 {
      assert ([[c] + head] + tail)[1..] == tail;
      assert ([head] + tail)[1..] == tail;
    }
  }

  /** Joining the pieces of a split with the same separator gives back the string. */
  lemma {:induction false} JoinSplit(s: string, sep: char)
    ensures Join(Split(s, sep), sep) == s
  {
    if s != [] {
      JoinSplit(s[1..], sep);
      var rest := Split(s[1..], sep);
      if s[0] == sep {
        assert ([""] + rest)[1..] == rest;
      } else {
        JoinConsChar(s[0], rest[0], rest[1..], sep);
        assert [rest[0]] + rest[1..] == rest;
      }
      assert s == [s[0]] + s[1..];
    }
  }

  /** No piece of a split contains the separator. */
  lemma {:induction false} SplitPiecesLackSep(s: string, sep: char)
    ensures forall p :: p in Split(s, sep) ==> sep !in p
  {
    if s != [] {
      SplitPiecesLackSep(s[1..], sep);
    }
  }

  /** `s.split(sep).length` is one more than the number of separators in `s`. */
  lemma {:induction false} SplitLength(s: string, sep: char)
    ensures |Split(s, sep)| == multiset(s)[sep] + 1
  {
    if s != [] {
      SplitLength(s[1..], sep);
      assert s == [s[0]] + s[1..];
      assert multiset(s) == multiset([s[0]]) + multiset(s[1..]);
    }
  }

  lemma {:induction false} SplitWithoutSep(p: string, sep: char)
    requires sep !in p
    ensures Split(p, sep) == [p]
  {
    if p != [] {
      SplitWithoutSep(p[1..], sep);
      assert [p[0]] + p[1..] == p;
    }
  }

  lemma {:induction false} SplitAfterPiece(p: string, t: string, sep: char)
    requires sep !in p
    ensures Split(p + [sep] + t, sep) == [p] + Split(t, sep)
  {
    var s := p + [sep] + t;
    if p == [] {
      assert s[1..] == t;
    } else {
      assert s[1..] == p[1..] + [sep] + t;
      SplitAfterPiece(p[1..], t, sep);
      assert [p[0]] + p[1..] == p;
    }
  }

  /** Splitting a join of separator-free pieces gives back the pieces. */
  lemma {:induction false} SplitJoin(parts: seq<string>, sep: char)
    requires |parts| >= 1
    requires forall p :: p in parts ==> sep !in p
    ensures Split(Join(parts, sep), sep) == parts
  {
    if |parts| == 1 {
      SplitWithoutSep(parts[0], sep);
    } else {
      SplitJoin(parts[1..], sep);
      SplitAfterPiece(parts[0], Join(parts[1..], sep), sep);
      assert [parts[0]] + parts[1..] == parts;
    }
  }

  /** Split of a string that starts with the character `c`. */
  lemma SplitCons(c: char, r: string, sep: char)
    ensures Split([c] + r, sep) ==
      if c == sep then [""] + Split(r, sep)
      else [[c] + Split(r, sep)[0]] + Split(r, sep)[1..]
  {
    assert ([c] + r)[1..] == r;
  }

  lemma InitLastCons(h: string, t: seq<string>)
    requires |t| >= 1
    ensures Init([h] + t) == [h] + Init(t) && Last([h] + t) == Last(t)
  {
  }

  lemma ConcatAssoc(c: char, u: string, y: string)
    ensures [c] + (u + y) == ([c] + u) + y
  {
  }

  /** Splitting a concatenation: the complete pieces of `x` come first, then
      the last, unterminated piece of `x` is continued by `y`. */
  lemma {:induction false} SplitConcat(x: string, y: string, sep: char)
    ensures Split(x + y, sep) == Init(Split(x, sep)) + Split(Last(Split(x, sep)) + y, sep)
    decreases |x|, 1
  {
    if x == [] {
      assert x + y == y;
    } else {
      assert x == [x[0]] + x[1..];
      SplitConcatCons(x[0], x[1..], y, sep);
    }
  }

  lemma {:induction false} SplitConcatCons(c: char, x: string, y: string, sep: char)
    ensures Split([c] + x + y, sep) ==
      Init(Split([c] + x, sep)) + Split(Last(Split([c] + x, sep)) + y, sep)
    decreases |x| + 1, 0
  {
    SplitConcat(x, y, sep);
    ConcatAssoc(c, x, y);
    SplitCons(c, x, sep);
    SplitCons(c, x + y, sep);
    if c == sep {
      SplitConcatSepCase(c, x, y, sep);
    } else if |Split(x, sep)| == 1 {
      SplitConcatShortCase(c, x, y, sep);
    } else {
      SplitConcatLongCase(c, x, y, sep);
    }
  }

  lemma SplitConcatSepCase(c: char, x: string, y: string, sep: char)
    requires c == sep
    requires Split(x + y, sep) == Init(Split(x, sep)) + Split(Last(Split(x, sep)) + y, sep)
    requires Split([c] + x, sep) == [""] + Split(x, sep)
    requires Split([c] + (x + y), sep) == [""] + Split(x + y, sep)
    requires [c] + x + y == [c] + (x + y)
    ensures Split([c] + x + y, sep) ==
      Init(Split([c] + x, sep)) + Split(Last(Split([c] + x, sep)) + y, sep)
  {
    InitLastCons("", Split(x, sep));
  }

  lemma SplitConcatShortCase(c: char, x: string, y: string, sep: char)
    requires c != sep && |Split(x, sep)| == 1
    requires Split(x + y, sep) == Init(Split(x, sep)) + Split(Last(Split(x, sep)) + y, sep)
    requires Split([c] + x, sep) == [[c] + Split(x, sep)[0]] + Split(x, sep)[1..]
    requires Split([c] + (x + y), sep) == [[c] + Split(x + y, sep)[0]] + Split(x + y, sep)[1..]
    requires [c] + x + y == [c] + (x + y)
    ensures Split([c] + x + y, sep) ==
      Init(Split([c] + x, sep)) + Split(Last(Split([c] + x, sep)) + y, sep)
  {
    var l := Last(Split(x, sep));
    assert Split([c] + x, sep) == [[c] + l];
    assert Split(x + y, sep) == Split(l + y, sep);
    SplitCons(c, l + y, sep);
    ConcatAssoc(c, l, y);
  }

  lemma SplitConcatLongCase(c: char, x: string, y: string, sep: char)
    requires c != sep && |Split(x, sep)| > 1
    requires Split(x + y, sep) == Init(Split(x, sep)) + Split(Last(Split(x, sep)) + y, sep)
    requires Split([c] + x, sep) == [[c] + Split(x, sep)[0]] + Split(x, sep)[1..]
    requires Split([c] + (x + y), sep) == [[c] + Split(x + y, sep)[0]] + Split(x + y, sep)[1..]
    requires [c] + x + y == [c] + (x + y)
    ensures Split([c] + x + y, sep) ==
      Init(Split([c] + x, sep)) + Split(Last(Split([c] + x, sep)) + y, sep)
  {
    var sx := Split(x, sep);
    var rest := Split(x + y, sep);
    var tail := Split(Last(sx) + y, sep);
    InitLastCons([c] + sx[0], sx[1..]);
    assert rest[0] == sx[0];
    assert rest[1..] == Init(sx)[1..] + tail;
    assert Init(sx)[1..] == Init(sx[1..]);
  }

  /** The characters `String.prototype.trim` removes: ECMAScript WhiteSpace
      and LineTerminator code points. */
  predicate IsSpace(c: char) {
    var n := c as int;
    (0x09 <= n <= 0x0D) || n == 0x20 || n == 0xA0 || n == 0x1680
    || (0x2000 <= n <= 0x200A) || n == 0x2028 || n == 0x2029
    || n == 0x202F || n == 0x205F || n == 0x3000 || n == 0xFEFF
  }

  ghost predicate AllSpace(s: string) {
    forall i :: 0 <= i < |s| ==> IsSpace(s[i])
  }

  function TrimStart(s: string): (r: string)
    ensures |r| <= |s| && r == s[|s| - |r|..] && AllSpace(s[..|s| - |r|])
    ensures r == [] || !IsSpace(r[0])
  {
    if s != [] && IsSpace(s[0]) then
      var r := TrimStart(s[1..]);
      assert s[..|s| - |r|] == [s[0]] + s[1..][..|s| - 1 - |r|];
      r
    else s
  }

  function TrimEnd(s: string): (r: string)
    ensures |r| <= |s| && r == s[..|r|] && AllSpace(s[|r|..])
    ensures r == [] || !IsSpace(r[|r| - 1])
  {
    if s != [] && IsSpace(s[|s| - 1]) then
      var r := TrimEnd(s[..|s| - 1]);
      assert s[|r|..] == s[..|s| - 1][|r|..] + [s[|s| - 1]];
      r
    else s
  }

  /** How much white space `s.trim()` drops at the front. */
  function TrimOffset(s: string): (n: nat)
    ensures n <= |s|
  {
    |s| - |TrimStart(s)|
  }

  /** `r` is the slice of `s` from `n` on that has no white space at either
      end, and everything of `s` around it is white space. */
  ghost predicate TrimmedAt(s: string, n: nat, r: string) {
    n + |r| <= |s| && r == s[n..n + |r|]
    && AllSpace(s[..n]) && AllSpace(s[n + |r|..])
    && (r == [] || (!IsSpace(r[0]) && !IsSpace(r[|r| - 1])))
  }

  /** `s.trim()`: `s` without its leading and trailing white space. */
  function Trim(s: string): (r: string)
    ensures TrimmedAt(s, TrimOffset(s), r)
  {
    var t := TrimStart(s);
    var r := TrimEnd(t);
    TrimmedSlice(s, |s| - |t|, t, r);
    r
  }

  /** The two halves of the trim composed: the white space TrimStart drops
      from the front of `s` and the white space TrimEnd drops from the back
      of what is left. */
  lemma TrimmedSlice(s: string, n: nat, t: string, r: string)
    requires n <= |s| && t == s[n..] && AllSpace(s[..n]) && (t == [] || !IsSpace(t[0]))
    requires |r| <= |t| && r == t[..|r|] && AllSpace(t[|r|..]) && (r == [] || !IsSpace(r[|r| - 1]))
    ensures TrimmedAt(s, n, r)
  {
    assert s[n + |r|..] == t[|r|..];
    assert r != [] ==> r[0] == t[0];
  }

  lemma SliceLacks(s: string, i: nat, j: nat, c: char)
    requires i <= j <= |s| && c !in s
    ensures c !in s[i..j]
  {
    forall k | 0 <= k < j - i
      ensures s[i..j][k] != c
    {
      assert s[i..j][k] == s[i + k];
    }
  }

  /** Trimming adds no character. */
  lemma TrimLacks(s: string, c: char)
    requires c !in s
    ensures c !in Trim(s)
  {
    var t := TrimStart(s);
    SliceLacks(s, |s| - |t|, |s|, c);
    assert s[|s| - |t|..|s|] == t;
    var r := TrimEnd(t);
    SliceLacks(t, 0, |r|, c);
    assert t[0..|r|] == r;
  }

  /** A string with no white space at either end is its own trim. */
  lemma TrimUnchanged(s: string)
    requires s == [] || (!IsSpace(s[0]) && !IsSpace(s[|s| - 1]))
    ensures Trim(s) == s
  {
  }

  /** ASCII `toLowerCase` of one character. */
  function LowerChar(c: char): char {
    if 'A' <= c <= 'Z' then (c as int + 32) as char else c
  }

  /** `s.toLowerCase()`, restricted to the ASCII letters. */
  function ToLower(s: string): string {
    seq(|s|, i requires 0 <= i < |s| => LowerChar(s[i]))
  }

  /** The lower-case form of `s` is `"true"` exactly when `s` spells "true"
      in any mixture of cases. */
  lemma LowerIsTrue(s: string)
    ensures ToLower(s) == "true" <==>
      |s| == 4 && (s[0] == 't' || s[0] == 'T') && (s[1] == 'r' || s[1] == 'R')
      && (s[2] == 'u' || s[2] == 'U') && (s[3] == 'e' || s[3] == 'E')
  {
    var l := ToLower(s);
    if l == "true" {
      assert |s| == 4;
      assert l[0] == LowerChar(s[0]) == 't' && l[1] == LowerChar(s[1]) == 'r';
      assert l[2] == LowerChar(s[2]) == 'u' && l[3] == LowerChar(s[3]) == 'e';
    }
  }
  /** `strings.filter(Boolean)`: the non-empty strings, in order. */
  function NonEmpty(lines: seq<string>): (r: seq<string>)
    ensures |r| <= |lines|
    ensures forall i :: 0 <= i < |r| ==> r[i] != ""
  {
    if lines == [] then []
    else (if lines[0] == "" then [] else [lines[0]]) + NonEmpty(lines[1..])
  }

  lemma {:induction false} NonEmptyConcat(a: seq<string>, b: seq<string>)
    ensures NonEmpty(a + b) == NonEmpty(a) + NonEmpty(b)
  {
    if a != [] {
      assert (a + b)[1..] == a[1..] + b;
      NonEmptyConcat(a[1..], b);
    } else {
      assert a + b == b;
    }
  }
}
