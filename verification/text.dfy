/**
 * Character and string helpers with the meaning Python 2's `str` methods
 * give them on byte strings: ASCII-only case mapping, `split` on a
 * separator, whitespace `split()`, `rstrip()`, `replace` and `int()`.
 */
module Text {

  datatype Option<+T> = None | Some(value: T)

  const TAB: char := '\t'

  predicate IsDigit(c: char) { '0' <= c <= '9' }

  /** Whitespace as Python's `str.split()` and `str.rstrip()` see it (space, \t, \n, \v, \f, \r). */
  predicate IsSpace(c: char) { c == ' ' || (9 <= c as int <= 13) }

  function UpperChar(c: char): char { if 'a' <= c <= 'z' then (c as int - 32) as char else c }
  function LowerChar(c: char): char { if 'A' <= c <= 'Z' then (c as int + 32) as char else c }

  /** `str.upper()`: ASCII letters only. */
  function Upper(s: string): (r: string)
    ensures |r| == |s|
    ensures forall i :: 0 <= i < |r| ==> r[i] == UpperChar(s[i])
    ensures forall i :: 0 <= i < |r| ==> !('a' <= r[i] <= 'z')
  {
    seq(|s|, i requires 0 <= i < |s| => UpperChar(s[i]))
  }

  /** `str.lower()`: ASCII letters only. */
  function Lower(s: string): (r: string)
    ensures |r| == |s|
    ensures forall i :: 0 <= i < |r| ==> r[i] == LowerChar(s[i])
    ensures forall i :: 0 <= i < |r| ==> !('A' <= r[i] <= 'Z')
  {
    seq(|s|, i requires 0 <= i < |s| => LowerChar(s[i]))
  }

  /** `s.count(c)` for a one-character `c`. */
  function Count(s: string, c: char): nat
  {
    if s == [] then 0 else (if s[0] == c then 1 else 0) + Count(s[1..], c)
  }

  lemma {:induction false} CountAppend(a: string, b: string, c: char)
    ensures Count(a + b, c) == Count(a, c) + Count(b, c)
    decreases |a|
  {
    if a == [] {
      assert a + b == b;
    } else {
      assert (a + b)[1..] == a[1..] + b;
      CountAppend(a[1..], b, c);
    }
  }

  lemma {:induction false} CountZero(s: string, c: char)
    ensures Count(s, c) == 0 <==> c !in s
    decreases |s|
  {
    if s != [] {
      CountZero(s[1..], c);
      assert s == [s[0]] + s[1..];
    }
  }

  /** `s.replace(c, "")`: every `c` deleted. */
  function Remove(s: string, c: char): (r: string)
    ensures c !in r
    ensures |r| == |s| - Count(s, c)
    ensures forall x :: x != c ==> (x in r <==> x in s)
    decreases |s|
  {
    if s == [] then []
    else if s[0] == c then Remove(s[1..], c)
    else [s[0]] + Remove(s[1..], c)
  }

  /** Deleting `c` from one character keeps it exactly when it is not `c`. */
  lemma RemoveOne(x: char, c: char)
    ensures Remove([x], c) == if x == c then [] else [x]
  {
    assert [x][1..] == [];
  }

  /**
   * Deleting `c` works piece by piece: together with `RemoveOne`, the kept
   * characters are those of `s` other than `c`, in their original order.
   */
  lemma {:induction false} RemoveAppend(a: string, b: string, c: char)
    ensures Remove(a + b, c) == Remove(a, c) + Remove(b, c)
    decreases |a|
  {
    if a != [] {
      assert (a + b)[1..] == a[1..] + b;
      RemoveAppend(a[1..], b, c);
    } else {
      assert a + b == b;
    }
  }

  /** `s.replace(c, t)`: every `c` replaced by the string `t`. */
  function Replace(s: string, c: char, t: string): (r: string)
    ensures c !in t ==> c !in r
    ensures |t| == 1 ==> |r| == |s| && forall i :: 0 <= i < |s| ==> r[i] == (if s[i] == c then t[0] else s[i])
    ensures c !in s ==> r == s
    decreases |s|
  {
    if s == [] then []
    else (if s[0] == c then t else [s[0]]) + Replace(s[1..], c, t)
  }

  /** `s.startswith(p)`. */
  predicate StartsWith(s: string, p: string) { |p| <= |s| && s[..|p|] == p }

  /** `s.index(c)`: the first position of `c`. */
  function IndexOf(s: string, c: char): (i: nat)
    requires c in s
    ensures i < |s| && s[i] == c && c !in s[..i]
    decreases |s|
  {
    if s[0] == c then 0 else 1 + IndexOf(s[1..], c)
  }

  /** Pieces joined back with the separator between them (the inverse of `Split`). */
  function Join(parts: seq<string>, sep: char): string
  {
    if |parts| == 0 then []
    else if |parts| == 1 then parts[0]
    else parts[0] + [sep] + Join(parts[1..], sep)
  }

  /**
   * `s.split(sep)` for a one-character separator, read character by
   * character: a separator starts a new piece, any other character joins the
   * piece being read.
   */
  function Split(s: string, sep: char): (parts: seq<string>)
    ensures |parts| >= 1
    decreases |s|
  {
    if s == [] then [[]]
    else
      var r := Split(s[1..], sep);
      if s[0] == sep then [[]] + r else [[s[0]] + r[0]] + r[1..]
  }

  /** A split has one more piece than the text has separators. */
  lemma {:induction false} SplitCount(s: string, sep: char)
    ensures |Split(s, sep)| == Count(s, sep) + 1
    decreases |s|
  {
    if s != [] {
      SplitCount(s[1..], sep);
    }
  }

  /** No piece of a split contains the separator. */
  lemma {:induction false} SplitPieces(s: string, sep: char)
    ensures forall i :: 0 <= i < |Split(s, sep)| ==> sep !in Split(s, sep)[i]
    decreases |s|
  {
    if s != [] {
      SplitPieces(s[1..], sep);
    }
  }

  /** Joining pieces after putting a character in front of the first puts it in front of the whole. */
  lemma JoinFront(c: char, parts: seq<string>, sep: char)
    requires |parts| >= 1
    ensures Join([[c] + parts[0]] + parts[1..], sep) == [c] + Join(parts, sep)
  {
    var q := [[c] + parts[0]] + parts[1..];
    assert q[1..] == parts[1..];
  }

  /** Joining the pieces of a split with the separator gives the text back. */
  lemma {:induction false} JoinSplit(s: string, sep: char)
    ensures Join(Split(s, sep), sep) == s
    decreases |s|
  {
    if s != [] {
      var r := Split(s[1..], sep);
      JoinSplit(s[1..], sep);
      if s[0] == sep {
        assert ([[]] + r)[1..] == r;
      } else {
        JoinFront(s[0], r, sep);
      }
      assert s == [s[0]] + s[1..];
    }
  }

  /** Text without the separator is a single piece. */
  lemma {:induction false} SplitWhole(p: string, sep: char)
    requires sep !in p
    ensures Split(p, sep) == [p]
    decreases |p|
  {
    if p != [] {
      SplitWhole(p[1..], sep);
      assert p == [p[0]] + p[1..];
    }
  }

  /** A separator-free piece, then a separator: the piece comes off first. */
  lemma {:induction false} SplitPrefix(p: string, sep: char, rest: string)
    requires sep !in p
    ensures Split(p + [sep] + rest, sep) == [p] + Split(rest, sep)
    decreases |p|
  {
    var s := p + [sep] + rest;
    if p == [] {
      assert s[1..] == rest;
    } else {
      assert s[1..] == p[1..] + [sep] + rest;
      SplitPrefix(p[1..], sep, rest);
      assert p == [p[0]] + p[1..];
    }
  }

  /** Splitting a joined list of separator-free pieces gives the pieces back. */
  lemma {:induction false} SplitJoin(parts: seq<string>, sep: char)
    requires |parts| >= 1
    requires forall i :: 0 <= i < |parts| ==> sep !in parts[i]
    ensures Split(Join(parts, sep), sep) == parts
    decreases |parts|
  {
    if |parts| == 1 {
      SplitWhole(parts[0], sep);
    } else {
      SplitPrefix(parts[0], sep, Join(parts[1..], sep));
      SplitJoin(parts[1..], sep);
      assert parts == [parts[0]] + parts[1..];
    }
  }

  /** One step of `Split`: the piece before the first separator, then the split of what follows it. */
  lemma SplitStep(t: string, sep: char, k: nat)
    requires sep in t && k == IndexOf(t, sep)
    ensures k < |t| && Split(t, sep) == [t[..k]] + Split(t[k + 1..], sep)
  {
    assert t == t[..k] + [sep] + t[k + 1..];
    SplitPrefix(t[..k], sep, t[k + 1..]);
  }

  /** Dropping `j` characters after dropping `i` drops `i + j`. */
  lemma DropDrop(s: string, i: nat, j: nat, next: nat)
    requires i + j == next <= |s|
    ensures s[i..][j..] == s[next..]
  {
  }

  /**
   * The `tokenizer` generator: yields the pieces between occurrences of
   * `c`, advancing an index with `s.index(c, i)`; collected here in order.
   */
  method Tokenize(s: string, c: char) returns (fields: seq<string>)
    ensures fields == Split(s, c)
  {
    fields := [];
    var i := 0;
    while true
      invariant 0 <= i <= |s|
      invariant fields + Split(s[i..], c) == Split(s, c)
      decreases |s| - i
    {
      var rest := s[i..];
      if c !in rest {
        SplitWhole(rest, c);
        fields := fields + [rest];
        return;
      }
      var k := IndexOf(rest, c);
      var next := i + k + 1;
      SplitStep(rest, c, k);
      DropDrop(s, i, k + 1, next);
      var piece := [rest[..k]];
      ghost var tail := Split(rest[k + 1..], c);
      assert (fields + piece) + tail == fields + (piece + tail);
      fields, i := fields + piece, next;
    }
  }

  /** Length of the leading run of non-whitespace characters. */
  function WordLen(s: string): (n: nat)
    ensures n <= |s|
    ensures forall k :: 0 <= k < n ==> !IsSpace(s[k])
    ensures n < |s| ==> IsSpace(s[n])
    decreases |s|
  {
    if s == [] || IsSpace(s[0]) then 0 else 1 + WordLen(s[1..])
  }

  /** `s.split()`: the maximal runs of non-whitespace characters, in order. */
  function Words(s: string): (ws: seq<string>)
    ensures forall i :: 0 <= i < |ws| ==> ws[i] != []
    ensures forall i, k :: 0 <= i < |ws| && 0 <= k < |ws[i]| ==> !IsSpace(ws[i][k])
    decreases |s|
  {
    if s == [] then []
    else if IsSpace(s[0]) then Words(s[1..])
    else
      var n := WordLen(s);
      [s[..n]] + Words(s[n..])
  }

  /** A name or field with no whitespace in it. */
  predicate Word(s: string)
  {
    s != [] && forall k :: 0 <= k < |s| ==> !IsSpace(s[k])
  }

  /** A word without whitespace is its own only word. */
  lemma WordsOfWord(w: string)
    requires Word(w)
    ensures WordLen(w) == |w| && Words(w) == [w]
  {
    var n := WordLen(w);
    assert w[..n] == w && w[n..] == [];
  }

  /** A whitespace-free word, a whitespace character and the rest split into that word, then the words of the rest. */
  lemma WordsCons(p: string, sep: char, rest: string)
    requires Word(p) && IsSpace(sep)
    ensures Words(p + [sep] + rest) == [p] + Words(rest)
  {
    var s := p + [sep] + rest;
    assert s[|p|] == sep;
    assert forall k :: 0 <= k < |p| ==> s[k] == p[k];
    var n := WordLen(s);
    assert n == |p|;
    assert s[..n] == p;
    assert s[n..][1..] == rest;
  }

  /** Whitespace-free, non-empty pieces joined by a whitespace separator split back into those pieces. */
  lemma {:induction false} WordsJoin(parts: seq<string>, sep: char)
    requires IsSpace(sep)
    requires forall i :: 0 <= i < |parts| ==> Word(parts[i])
    ensures Words(Join(parts, sep)) == parts
    decreases |parts|
  {
    if |parts| == 1 {
      WordsOfWord(parts[0]);
    } else if |parts| > 1 {
      var rest := Join(parts[1..], sep);
      assert Join(parts, sep) == parts[0] + [sep] + rest;
      WordsCons(parts[0], sep, rest);
      WordsJoin(parts[1..], sep);
      assert parts == [parts[0]] + parts[1..];
    }
  }

  /** `s.rstrip()`: trailing whitespace removed. */
  function RStrip(s: string): string
    decreases |s|
  {
    if s == [] || !IsSpace(s[|s| - 1]) then s else RStrip(s[..|s| - 1])
  }

  /** `RStrip` keeps a prefix that does not end in whitespace and drops only whitespace. */
  lemma {:induction false} RStripMeaning(s: string)
    ensures var r := RStrip(s);
      && |r| <= |s| && r == s[..|r|]
      && (r == [] || !IsSpace(r[|r| - 1]))
      && forall k :: |r| <= k < |s| ==> IsSpace(s[k])
    decreases |s|
  {
    if s != [] && IsSpace(s[|s| - 1]) {
      var t := s[..|s| - 1];
      RStripMeaning(t);
      assert RStrip(t) == t[..|RStrip(t)|];
    }
  }

  /** Leading whitespace removed. */
  function LStrip(s: string): string
    decreases |s|
  {
    if s == [] || !IsSpace(s[0]) then s else LStrip(s[1..])
  }

  /** `LStrip` keeps a suffix that does not start with whitespace and drops only whitespace. */
  lemma {:induction false} LStripMeaning(s: string)
    ensures var r := LStrip(s);
      && |r| <= |s| && r == s[|s| - |r|..]
      && (r == [] || !IsSpace(r[0]))
      && forall k :: 0 <= k < |s| - |r| ==> IsSpace(s[k])
    decreases |s|
  {
    if s != [] && IsSpace(s[0]) {
      LStripMeaning(s[1..]);
    }
  }

  predicate IsDecimal(d: string) { |d| > 0 && forall k :: 0 <= k < |d| ==> IsDigit(d[k]) }

  /** The value of a string of decimal digits, most significant first. */
  function DigitsValue(d: string): (n: nat)
    requires forall k :: 0 <= k < |d| ==> IsDigit(d[k])
    decreases |d|
  {
    if d == [] then 0
    else
      assert IsDigit(d[|d| - 1]);
      10 * DigitsValue(d[..|d| - 1]) + (d[|d| - 1] as int - '0' as int)
  }

  /**
   * Python's `int(s)`: surrounding whitespace, an optional sign, then one or
   * more decimal digits; anything else is a `ValueError` (here `None`).
   */
  function ParseInt(s: string): (r: Option<int>)
  {
    var t := LStrip(RStrip(s));
    if |t| > 0 && (t[0] == '+' || t[0] == '-') then
      if IsDecimal(t[1..]) then
        var v: int := DigitsValue(t[1..]);
        Some(if t[0] == '-' then -v else v)
      else None
    else if IsDecimal(t) then Some(DigitsValue(t))
    else None
  }

  /** Decimal rendering of a natural number (no sign, no leading zeros). */
  function ShowNat(n: nat): (d: string)
    ensures IsDecimal(d)
  {
    if n < 10 then [('0' as int + n) as char] else ShowNat(n / 10) + [('0' as int + n % 10) as char]
  }

  lemma {:induction false} DigitsShowNat(n: nat)
    ensures DigitsValue(ShowNat(n)) == n
  {
    if n >= 10 {
      var d := ShowNat(n);
      assert d[..|d| - 1] == ShowNat(n / 10);
      DigitsShowNat(n / 10);
    }
  }

  /** `int(str(n))` gives `n` back, for every integer. */
  lemma ParseIntShow(n: int)
    ensures ParseInt(if n < 0 then ['-'] + ShowNat(-n) else ShowNat(n)) == Some(n)
  {
    var d := ShowNat(if n < 0 then -n else n);
    DigitsShowNat(if n < 0 then -n else n);
    var s := if n < 0 then ['-'] + d else d;
    assert !IsSpace(s[|s| - 1]) && !IsSpace(s[0]);
    assert LStrip(RStrip(s)) == s;
    if n < 0 {
      assert s[1..] == d;
    }
  }
}
