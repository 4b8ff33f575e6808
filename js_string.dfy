/**
 * The JavaScript string built-ins the sanitizer relies on: `String.prototype.trim`,
 * `String.prototype.split` with a one-character separator and `Array.prototype.join`.
 * Strings are sequences of characters; JavaScript's UTF-16 code units are not
 * distinguished from code points, which none of these operations can observe for
 * the characters they test.
 */
module JsString {

  /** The WhiteSpace and LineTerminator code points of ECMAScript, which `trim` strips. */
  predicate IsWhiteSpace(c: char) {
    var n := c as int;
    n == 0x09 || n == 0x0A || n == 0x0B || n == 0x0C || n == 0x0D || n == 0x20 ||
    n == 0xA0 || n == 0x1680 || (0x2000 <= n <= 0x200A) || n == 0x2028 || n == 0x2029 ||
    n == 0x202F || n == 0x205F || n == 0x3000 || n == 0xFEFF
  }

  predicate AllWhiteSpace(s: string) {
    forall k :: 0 <= k < |s| ==> IsWhiteSpace(s[k])
  }

  /** The index of the first character at or after `i` that is not white space, or `|s|`. */
  function FirstVisible(s: string, i: nat): (n: nat)
    requires i <= |s|
    ensures i <= n <= |s|
    ensures forall k :: i <= k < n ==> IsWhiteSpace(s[k])
    ensures n < |s| ==> !IsWhiteSpace(s[n])
    decreases |s| - i
  {
    if i < |s| && IsWhiteSpace(s[i]) then FirstVisible(s, i + 1) else i
  }

  /** The index just after the last character before `j` that is not white space, or 0. */
  function EndVisible(s: string, j: nat): (n: nat)
    requires j <= |s|
    ensures n <= j
    ensures forall k :: n <= k < j ==> IsWhiteSpace(s[k])
    ensures n > 0 ==> !IsWhiteSpace(s[n - 1])
    decreases j
  {
    if j > 0 && IsWhiteSpace(s[j - 1]) then EndVisible(s, j - 1) else j
  }

  /**
   * `s.trim()`: `s` without its leading and trailing white space, and nothing else:
   * `s` is white space, then the result, then white space. It is empty exactly when
   * `s` is all white space; otherwise it runs from the first visible character of
   * `s` to the last one.
   */
  function Trim(s: string): (r: string)
    ensures r == [] <==> AllWhiteSpace(s)
    ensures r != [] ==> r[0] == s[FirstVisible(s, 0)] && r[|r| - 1] == s[EndVisible(s, |s|) - 1]
    ensures r != [] ==> !IsWhiteSpace(r[0]) && !IsWhiteSpace(r[|r| - 1])
    ensures exists a, b :: Padded(s, a, r, b)
  {
    var i := FirstVisible(s, 0);
    var j := EndVisible(s, |s|);
    if i == |s| then
      Surrounded(s, |s|, |s|);
      assert Padded(s, s, [], []);
      []
    else
      assert i < j by {
        assert !IsWhiteSpace(s[i]);
      }
      Surrounded(s, i, j);
      assert Padded(s, s[..i], s[i..j], s[j..]);
      s[i..j]
  }

  /** `s` is `r` with white space `a` before it and white space `b` after it. */
  predicate Padded(s: string, a: string, r: string, b: string) {
    AllWhiteSpace(a) && AllWhiteSpace(b) && s == a + r + b
  }

  /** White space up to `i` and from `j` on surrounds the slice between them. */
  lemma Surrounded(s: string, i: nat, j: nat)
    requires i <= j <= |s|
    requires forall k :: 0 <= k < i ==> IsWhiteSpace(s[k])
    requires forall k :: j <= k < |s| ==> IsWhiteSpace(s[k])
    ensures AllWhiteSpace(s[..i]) && AllWhiteSpace(s[j..]) && s == s[..i] + s[i..j] + s[j..]
  {
  }

  /** `parts.join(sep)`: the parts in order with `sep` between neighbours, `""` for no parts. */
  function Join(parts: seq<string>, sep: string): string
    decreases |parts|
  {
    if |parts| == 0 then ""
    else if |parts| == 1 then parts[0]
    else parts[0] + sep + Join(parts[1..], sep)
  }

  /** `s.split(sep)` for a one-character separator: at least one piece, none holding `sep`. */
  function Split(s: string, sep: char): (r: seq<string>)
    ensures |r| >= 1
    ensures forall k :: 0 <= k < |r| ==> sep !in r[k]
    decreases |s|
  {
    if s == [] then [""]
    else
      var rest := Split(s[1..], sep);
      if s[0] == sep then [""] + rest
      else [[s[0]] + rest[0]] + rest[1..]
  }

  /** Joining the pieces of a split with the separator gives back the original string. */
  lemma {:induction false} JoinSplit(s: string, sep: char)
    ensures Join(Split(s, sep), [sep]) == s
    decreases |s|
  {
    if s != [] {
      var rest := Split(s[1..], sep);
      JoinSplit(s[1..], sep);
      if s[0] == sep {
        assert Split(s, sep)[1..] == rest;
      } else {
        var r := Split(s, sep);
        assert r[1..] == rest[1..];
        if |rest| == 1 {
          assert Join(rest, [sep]) == rest[0];
        } else {
          assert Join(rest, [sep]) == rest[0] + [sep] + Join(rest[1..], [sep]);
        }
      }
    }
  }

  lemma {:induction false} SplitWithout(s: string, sep: char)
    requires sep !in s
    ensures Split(s, sep) == [s]
    decreases |s|
  {
    if s != [] {
      SplitWithout(s[1..], sep);
      assert [s[0]] + s[1..] == s;
    }
  }

  lemma {:induction false} SplitAfterPiece(x: string, sep: char, t: string)
    requires sep !in x
    ensures Split(x + [sep] + t, sep) == [x] + Split(t, sep)
    decreases |x|
  {
    var s := x + [sep] + t;
    if x == [] {
      assert s[1..] == t;
    } else {
      assert s[1..] == x[1..] + [sep] + t;
      SplitAfterPiece(x[1..], sep, t);
      assert [x[0]] + x[1..] == x;
    }
  }

  /**
   * The split is the only way to cut a string into separator-free pieces that join
   * back to it with the separator.
   */
  lemma {:induction false} SplitUnique(pieces: seq<string>, sep: char)
    requires |pieces| >= 1
    requires forall k :: 0 <= k < |pieces| ==> sep !in pieces[k]
    ensures Split(Join(pieces, [sep]), sep) == pieces
    decreases |pieces|
  {
    if |pieces| == 1 {
      SplitWithout(pieces[0], sep);
    } else {
      SplitUnique(pieces[1..], sep);
      SplitAfterPiece(pieces[0], sep, Join(pieces[1..], [sep]));
      assert [pieces[0]] + pieces[1..] == pieces;
    }
  }

  /** A character that occurs neither in the parts nor in the separator is absent from the join. */
  lemma {:induction false} JoinExcludes(parts: seq<string>, sep: string, c: char)
    requires c !in sep
    requires forall k :: 0 <= k < |parts| ==> c !in parts[k]
    ensures c !in Join(parts, sep)
    decreases |parts|
  {
    if |parts| > 1 {
      JoinExcludes(parts[1..], sep, c);
    }
  }

  /** With a non-empty separator, the join is empty exactly when there are no parts or one empty part. */
  lemma {:induction false} JoinEmpty(parts: seq<string>, sep: string)
    requires sep != ""
    ensures Join(parts, sep) == "" <==> parts == [] || (|parts| == 1 && parts[0] == "")
    decreases |parts|
  {
    if |parts| > 1 {
      assert |Join(parts, sep)| >= |sep|;
    }
  }
}
