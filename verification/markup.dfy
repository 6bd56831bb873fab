/**
 * The base-call string of one samtools mpileup column and the markup the
 * generic decoder strips from it before counting: `.`/`,` matches, `$`
 * segment ends, `^x` segment starts (x a mapping-quality byte), `+N…`/`-N…`
 * indel markup and `*` deleted-reference placeholders; and the Phred+33
 * quality string beside it.
 */
module Markup {
  import opened Text

  /** `[ord(c) - 33 for c in quals]`: Phred+33 decoding, one quality per character. */
  function DecodeQuals(s: string): (q: seq<int>)
    ensures |q| == |s|
    ensures forall i :: 0 <= i < |s| ==> q[i] + 33 == s[i] as int
  {
    seq(|s|, i requires 0 <= i < |s| => s[i] as int - 33)
  }

  /** Decoding works character by character, so a quality string may be decoded in pieces. */
  lemma DecodeQualsAppend(s: string, t: string)
    ensures DecodeQuals(s + t) == DecodeQuals(s) + DecodeQuals(t)
  {
  }

  /** Distinct quality strings decode to distinct quality lists: decoding loses nothing. */
  lemma DecodeQualsInjective(s: string, t: string)
    requires DecodeQuals(s) == DecodeQuals(t)
    ensures s == t
  {
    forall i | 0 <= i < |s|
      ensures s[i] == t[i]
    {
      assert s[i] as int == DecodeQuals(s)[i] + 33 == t[i] as int;
    }
  }

  /**
   * `.` becomes the upper-case reference base and `,` its lower-case form,
   * by two successive `str.replace` calls.
   */
  function ExpandMatches(bases: string, ref: string): (r: string)
    ensures |ref| == 1 ==> |r| == |bases|
    ensures |ref| == 1 ==> forall i :: 0 <= i < |bases| ==>
      r[i] == (if bases[i] == '.' then UpperChar(ref[0]) else if bases[i] == ',' then LowerChar(ref[0]) else bases[i])
  {
    Replace(Replace(bases, '.', Upper(ref)), ',', Lower(ref))
  }

  /* ---------- start and end of read segments ---------- */

  /** The regex `\^.` matches at `i` (its `.` matches any character except a newline). */
  predicate StartMarkAt(s: string, i: int) { 0 <= i && i + 1 < |s| && s[i] == '^' && s[i + 1] != '\n' }

  /** `re.sub('\^.', '', s)`: every non-overlapping `^x` pair deleted, scanning left to right. */
  function StripStarts(s: string): (r: string)
    ensures |r| <= |s| && (|s| - |r|) % 2 == 0
    ensures forall c :: c in r ==> c in s
    ensures '^' !in s ==> r == s
    ensures |s| > 0 && s[0] != '^' ==> |r| > 0 && r[0] == s[0]
    ensures forall i :: !StartMarkAt(r, i)
    decreases |s|
  {
    if StartMarkAt(s, 0) then StripStarts(s[2..])
    else if s == [] then []
    else
      var rest := StripStarts(s[1..]);
      var r := [s[0]] + rest;
      assert !StartMarkAt(r, 0) by {
        if |s| > 1 && s[0] == '^' { assert s[1] == '\n' && rest[0] == '\n'; }
      }
      assert forall i :: 1 <= i ==> StartMarkAt(r, i) == StartMarkAt(rest, i - 1);
      r
  }

  /** Text without a `^` passes through `re.sub('\^.', '')` unchanged, whatever follows it. */
  lemma {:induction false} StripStartsPrefix(p: string, t: string)
    requires '^' !in p
    ensures StripStarts(p + t) == p + StripStarts(t)
    decreases |p|
  {
    if p != [] {
      var s := p + t;
      assert s[0] == p[0] && s[1..] == p[1..] + t;
      assert !StartMarkAt(s, 0);
      StripStartsPrefix(p[1..], t);
    } else {
      assert p + t == t;
    }
  }

  /**
   * The first `^x` match (x not a newline) is deleted with nothing before it
   * touched, and the scan resumes after it: the characters that survive are
   * exactly those outside the matched pairs, in order.
   */
  lemma StripStartsMark(p: string, x: char, t: string)
    requires '^' !in p && x != '\n'
    ensures StripStarts(p + ['^', x] + t) == p + StripStarts(t)
  {
    var m := ['^', x] + t;
    assert p + ['^', x] + t == p + m;
    StripStartsPrefix(p, m);
    assert StartMarkAt(m, 0) && m[2..] == t;
  }

  datatype Stripped = Stripped(bases: string, ends: nat, starts: nat)

  /**
   * `rem_startend_markup`: every `$` deleted first (counted as read ends),
   * then every `^x` pair (counted as read starts, half the characters removed).
   */
  function StripStartEnd(s: string): (r: Stripped)
    ensures '$' !in r.bases
    ensures r.ends == Count(s, '$')
    ensures |s| == |r.bases| + r.ends + 2 * r.starts
    ensures forall i :: !StartMarkAt(r.bases, i)
    ensures '$' !in s && '^' !in s ==> r == Stripped(s, 0, 0)
  {
    var noEnds := Remove(s, '$');
    var noStarts := StripStarts(noEnds);
    assert '$' !in s ==> noEnds == s by {
      if '$' !in s { CountZero(s, '$'); RemoveNothing(s, '$'); }
    }
    Stripped(noStarts, |s| - |noEnds|, (|noEnds| - |noStarts|) / 2)
  }

  lemma {:induction false} RemoveNothing(s: string, c: char)
    requires c !in s
    ensures Remove(s, c) == s
    decreases |s|
  {
    if s != [] {
      RemoveNothing(s[1..], c);
      assert s == [s[0]] + s[1..];
    }
  }

  /**
   * Because `$` is removed before `^x`, a segment start whose mapping-quality
   * byte is `$` (mapping quality 3) counts as a read end, and its `^` then
   * swallows the base call that follows it.
   */
  lemma DollarMappingQualityLost()
    ensures StripStartEnd("^$A") == Stripped("", 1, 1)
    ensures StripStartEnd("^$A.") == Stripped(".", 1, 1)
  {
    assert Remove("^$A", '$') == "^A";
    assert StripStarts("^A") == "";
    assert Remove("^$A.", '$') == "^A.";
    assert StartMarkAt("^A.", 0);
    assert "^A."[2..] == ".";
  }

  /* ---------- indel markup ---------- */

  /** The regex `[-+][0-9]+` matches at `i`. */
  predicate IndelAt(s: string, i: int) { 0 <= i && i + 1 < |s| && (s[i] == '+' || s[i] == '-') && IsDigit(s[i + 1]) }

  /** `re.search('[-+][0-9]+', s)` from position `from`: the leftmost match. */
  function FindIndel(s: string, from: nat): (r: Option<nat>)
    requires from <= |s|
    ensures r.None? ==> forall i :: from <= i < |s| ==> !IndelAt(s, i)
    ensures r.Some? ==> from <= r.value && IndelAt(s, r.value) && forall i :: from <= i < r.value ==> !IndelAt(s, i)
    decreases |s| - from
  {
    if from + 1 >= |s| then None
    else if IndelAt(s, from) then Some(from)
    else FindIndel(s, from + 1)
  }

  /** Where the greedy run of digits starting at `j` ends. */
  function DigitsEnd(s: string, j: nat): (k: nat)
    requires j <= |s|
    ensures j <= k <= |s|
    ensures forall m :: j <= m < k ==> IsDigit(s[m])
    ensures k < |s| ==> !IsDigit(s[k])
    decreases |s| - j
  {
    if j == |s| || !IsDigit(s[j]) then j else DigitsEnd(s, j + 1)
  }

  /**
   * One pass of the `rem_indel_markup` loop at a match at `i`: the sign, its
   * digits and the next N characters (N the digits' value) are deleted, fewer
   * when the string ends first.
   */
  function CutIndel(s: string, i: nat): (r: string)
    requires IndelAt(s, i)
    ensures |r| + 2 <= |s|
    ensures i <= |r| && r[..i] == s[..i]
    ensures forall c :: c in r ==> c in s
  {
    var e := DigitsEnd(s, i + 1);
    var n := DigitsValue(s[i + 1..e]);
    s[..i] + (if e + n <= |s| then s[e + n..] else [])
  }

  lemma CutIndelCount(s: string, i: nat, c: char)
    requires IndelAt(s, i)
    ensures Count(CutIndel(s, i), c) + (if s[i] == c then 1 else 0) <= Count(s, c)
  {
    var e := DigitsEnd(s, i + 1);
    var n := DigitsValue(s[i + 1..e]);
    var m := if e + n <= |s| then e + n else |s|;
    assert CutIndel(s, i) == s[..i] + s[m..];
    assert s == s[..i] + (s[i..m] + s[m..]);
    CountAppend(s[..i], s[i..m] + s[m..], c);
    CountAppend(s[i..m], s[m..], c);
    CountAppend(s[..i], s[m..], c);
  }

  /**
   * What one pass removes: the sign, its whole run of digits (at least one)
   * and then N more characters, or all that is left when fewer remain; the
   * text before the match and a suffix after the removed run are kept.
   */
  lemma CutIndelSpan(s: string, i: nat)
    requires IndelAt(s, i)
    ensures var e := DigitsEnd(s, i + 1);
      var n := DigitsValue(s[i + 1..e]);
      var r := CutIndel(s, i);
      && i + 2 <= e
      && |s| - |r| == (e - i) + (if e + n <= |s| then n else |s| - e)
      && r == s[..i] + s[|s| - (|r| - i)..]
  {
  }

  /**
   * The `while True` loop of `rem_indel_markup`, as a recursion over its
   * passes: the string left when no match remains, and the number of passes
   * whose sign was `+` (`num_ins_events`). Each pass shortens the string by
   * at least two characters, so the loop ends.
   */
  function StripIndels(s: string): (r: (string, nat))
    ensures forall i :: 0 <= i < |r.0| ==> !IndelAt(r.0, i)
    ensures |r.0| <= |s|
    ensures forall c :: c in r.0 ==> c in s
    ensures r.1 <= Count(s, '+')
    decreases |s|
  {
    match FindIndel(s, 0)
    case None => (s, 0)
    case Some(i) =>
      var rest := StripIndels(CutIndel(s, i));
      CutIndelCount(s, i, '+');
      (rest.0, rest.1 + if s[i] == '+' then 1 else 0)
  }

  /** One pass of the loop: what is left to strip after the cut at the leftmost match. */
  lemma StripIndelsStep(s: string, i: nat, t: string)
    requires FindIndel(s, 0) == Some(i) && t == CutIndel(s, i)
    ensures StripIndels(t).0 == StripIndels(s).0
    ensures StripIndels(s).1 == StripIndels(t).1 + (if s[i] == '+' then 1 else 0)
  {
  }

  /** A string without `+` or `-` has no indel markup to strip. */
  lemma StripIndelsNoSign(s: string)
    requires '+' !in s && '-' !in s
    ensures StripIndels(s) == (s, 0)
  {
    forall i | 0 <= i < |s|
      ensures !IndelAt(s, i)
    {
      assert s[i] in s;
    }
  }

  /* ---------- deleted-reference placeholders ---------- */

  /** `[q for (b, q) in zip(bases, quals) if b != '*']`: `zip` stops at the shorter sequence. */
  function KeptQuals(bases: string, quals: seq<int>): (r: seq<int>)
    ensures |r| <= |Remove(bases, '*')|
    ensures |quals| >= |bases| ==> |r| == |Remove(bases, '*')|
    decreases |bases|
  {
    if bases == [] || quals == [] then []
    else (if bases[0] != '*' then [quals[0]] else []) + KeptQuals(bases[1..], quals[1..])
  }

  /** `zip(a, b)`. */
  function Zip(a: string, b: seq<int>): (z: seq<(char, int)>)
    ensures |z| == if |a| <= |b| then |a| else |b|
    ensures forall i :: 0 <= i < |z| ==> z[i] == (a[i], b[i])
    decreases |a|
  {
    if a == [] || b == [] then [] else [(a[0], b[0])] + Zip(a[1..], b[1..])
  }

  /** The (base, quality) pairs whose base is not `*`, in order. */
  function NonStarPairs(ps: seq<(char, int)>): seq<(char, int)>
  {
    if ps == [] then [] else (if ps[0].0 != '*' then [ps[0]] else []) + NonStarPairs(ps[1..])
  }

  /**
   * Bases and qualities are filtered in lock-step: pairing the kept bases
   * with the kept qualities gives exactly the input pairs whose base is not
   * `*`, in their order, so no quality moves to another base.
   */
  lemma {:induction false} LockStep(bases: string, quals: seq<int>)
    ensures Zip(Remove(bases, '*'), KeptQuals(bases, quals)) == NonStarPairs(Zip(bases, quals))
    decreases |bases|
  {
    if bases != [] && quals != [] {
      LockStep(bases[1..], quals[1..]);
      var z := Zip(bases, quals);
      assert z == [(bases[0], quals[0])] + Zip(bases[1..], quals[1..]);
      assert z[1..] == Zip(bases[1..], quals[1..]);
      if bases[0] != '*' {
        var rb, rq := Remove(bases[1..], '*'), KeptQuals(bases[1..], quals[1..]);
        assert Remove(bases, '*') == [bases[0]] + rb;
        assert KeptQuals(bases, quals) == [quals[0]] + rq;
        if rq != [] {
          assert rb != [];
          assert ([bases[0]] + rb)[1..] == rb;
          assert ([quals[0]] + rq)[1..] == rq;
        }
      }
    }
  }

  /** Enough qualities for the bases means one quality for every kept base. */
  lemma KeptQualsLength(bases: string, quals: seq<int>)
    requires |quals| >= |bases|
    ensures |KeptQuals(bases, quals)| == |Remove(bases, '*')| == |bases| - Count(bases, '*')
  {
  }

  /* ---------- the generic decoder's cleaning pipeline ---------- */

  /** The cleaned bases and qualities, and the four markup counters. */
  datatype Cleaned = Cleaned(bases: string, quals: seq<int>, ends: nat, starts: nat, ins: nat, dels: nat)

  /**
   * `.`/`,` expanded, then start/end markup, then indel markup stripped;
   * `num_del_events` is the number of `*` left, and the `*`s are then
   * removed from the bases and, in lock-step, from the qualities.
   */
  function Clean(bases: string, quals: seq<int>, ref: string): (c: Cleaned)
    ensures '*' !in c.bases && '$' !in c.bases
    ensures |c.quals| <= |c.bases|
  {
    CleanExpanded(ExpandMatches(bases, ref), quals)
  }

  /** The steps of `Clean` after the matches are expanded. */
  function CleanExpanded(bases: string, quals: seq<int>): (c: Cleaned)
    ensures '*' !in c.bases && '$' !in c.bases
    ensures |c.quals| <= |c.bases|
  {
    var se := StripStartEnd(bases);
    var (noIndels, ins) := StripIndels(se.bases);
    Cleaned(Remove(noIndels, '*'), KeptQuals(noIndels, quals), se.ends, se.starts, ins, Count(noIndels, '*'))
  }

  /** Markup-free base calls come through unchanged, with every counter zero. */
  lemma CleanWithoutMarkup(bases: string, quals: seq<int>, ref: string)
    requires forall c :: c in bases ==> c !in ".,$^+-*"
    requires |quals| == |bases|
    ensures Clean(bases, quals, ref) == Cleaned(bases, quals, 0, 0, 0, 0)
  {
    assert '.' !in bases && ',' !in bases;
    var e := ExpandMatches(bases, ref);
    assert e == bases;
    StripIndelsNoSign(bases);
    CountZero(bases, '*');
    RemoveNothing(bases, '*');
    KeptQualsAll(bases, quals);
  }

  /**
   * Matches expanded against reference `G`, a two-base insertion and a
   * one-base deletion stripped: two base calls remain, one insertion is
   * counted and no deletion (only `*` counts as one).
   */
  lemma CleanMixedColumn(bases: string, quals: seq<int>, ref: string)
    requires bases == ".+2AG,-1A" && ref == "G" && |quals| == 9
    ensures Clean(bases, quals, ref) == Cleaned("Gg", quals[..2], 0, 0, 1, 0)
  {
    ExpandMixedColumn(bases, ref);
    CleanExpandedMixedColumn(ExpandMatches(bases, ref), quals);
  }

  lemma CleanExpandedMixedColumn(e: string, quals: seq<int>)
    requires e == "G+2AGg-1A" && |quals| == 9
    ensures CleanExpanded(e, quals) == Cleaned("Gg", quals[..2], 0, 0, 1, 0)
  {
    assert '$' !in e && '^' !in e;
    StripMixedColumn();
    NoStars("Gg", quals);
  }

  lemma NoStars(c: string, quals: seq<int>)
    requires c == "Gg" && |quals| == 9
    ensures Remove(c, '*') == c && Count(c, '*') == 0 && KeptQuals(c, quals) == quals[..2]
  {
    CountZero(c, '*');
    RemoveNothing(c, '*');
    KeptQualsAll(c, quals[..2]);
    KeptQualsPrefix(c, quals);
  }

  lemma ExpandMixedColumn(bases: string, ref: string)
    requires bases == ".+2AG,-1A" && ref == "G"
    ensures ExpandMatches(bases, ref) == "G+2AGg-1A"
  {
    assert Upper(ref) == "G";
    ReplaceDots(bases);
    assert Lower(ref) == "g";
    ReplaceCommas(Replace(bases, '.', ref));
  }

  lemma ReplaceDots(src: string)
    requires src == ".+2AG,-1A"
    ensures Replace(src, '.', "G") == "G+2AG,-1A"
  {
    var a := Replace(src, '.', "G");
    assert a[0] == 'G' && a[1] == '+' && a[2] == '2' && a[3] == 'A' && a[4] == 'G';
    assert a[5] == ',' && a[6] == '-' && a[7] == '1' && a[8] == 'A';
    SameChars(a, "G+2AG,-1A");
  }

  lemma ReplaceCommas(src: string)
    requires src == "G+2AG,-1A"
    ensures Replace(src, ',', "g") == "G+2AGg-1A"
  {
    var a := Replace(src, ',', "g");
    assert a[0] == 'G' && a[1] == '+' && a[2] == '2' && a[3] == 'A' && a[4] == 'G';
    assert a[5] == 'g' && a[6] == '-' && a[7] == '1' && a[8] == 'A';
    SameChars(a, "G+2AGg-1A");
  }

  lemma SameChars(a: string, b: string)
    requires |a| == |b| && forall i :: 0 <= i < |a| ==> a[i] == b[i]
    ensures a == b
  {
  }

  lemma StripMixedColumn()
    ensures StripIndels("G+2AGg-1A") == ("Gg", 1)
  {
    var e := "G+2AGg-1A";
    assert IndelAt(e, 1) && !IndelAt(e, 0);
    assert FindIndel(e, 0) == Some(1);
    assert DigitsEnd(e, 2) == 3;
    assert e[2..3] == "2";
    assert DigitsValue("2") == 2;
    var c1 := CutIndel(e, 1);
    assert c1 == "Gg-1A";
    assert IndelAt(c1, 2) && !IndelAt(c1, 0) && !IndelAt(c1, 1);
    assert FindIndel(c1, 0) == Some(2);
    assert DigitsEnd(c1, 3) == 4;
    assert c1[3..4] == "1";
    assert DigitsValue("1") == 1;
    var c2 := CutIndel(c1, 2);
    assert c2 == "Gg";
    assert FindIndel(c2, 0) == None;
    assert StripIndels(c2) == (c2, 0);
    assert StripIndels(c1) == (c2, 0);
  }

  lemma {:induction false} KeptQualsPrefix(bases: string, quals: seq<int>)
    requires |bases| <= |quals|
    ensures KeptQuals(bases, quals) == KeptQuals(bases, quals[..|bases|])
    decreases |bases|
  {
    if bases != [] {
      KeptQualsPrefix(bases[1..], quals[1..]);
      assert quals[1..][..|bases| - 1] == quals[..|bases|][1..];
    }
  }

  lemma {:induction false} KeptQualsAll(bases: string, quals: seq<int>)
    requires '*' !in bases && |quals| == |bases|
    ensures KeptQuals(bases, quals) == quals
    decreases |bases|
  {
    if bases != [] {
      KeptQualsAll(bases[1..], quals[1..]);
      assert quals == [quals[0]] + quals[1..];
    }
  }
}
