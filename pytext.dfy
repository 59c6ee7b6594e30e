/**
 * The parts of Python's `str` behaviour that the importer and the keyword
 * helpers rely on: whitespace, `strip`, `lower`, `split`, `join`, the
 * substring test `w in s` and `str(int)`. Strings are sequences of Unicode
 * code points, so `|s|` is Python's `len(s)`.
 */
module PyText {

  /** Python's `str.isspace()`: the characters `strip()`, `split()` and the
      regular-expression class `\s` treat as whitespace. */
  predicate IsSpace(c: char) {
    c == ' ' || ('\t' <= c <= '\r') || ('\U{1c}' <= c <= '\U{1f}')
    || c == '\U{85}' || c == '\U{a0}' || c == '\U{1680}'
    || ('\U{2000}' <= c <= '\U{200a}') || c == '\U{2028}' || c == '\U{2029}'
    || c == '\U{202f}' || c == '\U{205f}' || c == '\U{3000}'
  }

  /** No character of `s` satisfies `drop`. */
  predicate NoneIn(s: string, drop: char -> bool) {
    forall i :: 0 <= i < |s| ==> !drop(s[i])
  }

  /** Number of leading characters of `s` that satisfy `drop`. */
  function LeadCount(s: string, drop: char -> bool): (n: nat)
    ensures n <= |s|
    ensures forall i :: 0 <= i < n ==> drop(s[i])
    ensures n < |s| ==> !drop(s[n])
  {
    if s != [] && drop(s[0]) then 1 + LeadCount(s[1..], drop) else 0
  }

  /** Length of `s` once its trailing characters that satisfy `drop` are cut. */
  function EndIndex(s: string, drop: char -> bool): (e: nat)
    ensures e <= |s|
    ensures forall i :: e <= i < |s| ==> drop(s[i])
    ensures 0 < e ==> !drop(s[e - 1])
  {
    if s != [] && drop(s[|s| - 1]) then EndIndex(s[..|s| - 1], drop) else |s|
  }

  /** `s` with its longest prefix of `drop` characters removed. */
  function DropLeading(s: string, drop: char -> bool): string {
    s[LeadCount(s, drop)..]
  }

  /** Python's `s.strip(chars)` with `drop` the set `chars`: the slice of `s`
      between its leading and its trailing run of dropped characters. */
  function Trim(s: string, drop: char -> bool): (r: string)
    ensures r == [] <==> forall i :: 0 <= i < |s| ==> drop(s[i])
    ensures r != [] ==> !drop(r[0]) && !drop(r[|r| - 1])
  {
    var a := LeadCount(s, drop);
    if a == |s| then [] else
      var b := EndIndex(s, drop);
      assert a < b;
      s[a..b]
  }

  /** Python's `s.strip()`. */
  function Strip(s: string): string {
    Trim(s, IsSpace)
  }

  /** What `Trim` keeps is a contiguous slice of `s`, and everything cut off on
      either side is dropped. */
  lemma TrimSlice(s: string, drop: char -> bool) returns (a: nat, b: nat)
    ensures a <= b <= |s| && Trim(s, drop) == s[a..b]
    ensures forall i :: 0 <= i < a ==> drop(s[i])
    ensures forall i :: b <= i < |s| ==> drop(s[i])
  {
    a := LeadCount(s, drop);
    if a < |s| {
      b := EndIndex(s, drop);
    } else {
      b := a;
      assert Trim(s, drop) == s[a..a];
    }
  }

  /** Trimming a string that has no dropped character leaves it unchanged. */
  lemma TrimNoop(s: string, drop: char -> bool)
    requires NoneIn(s, drop)
    ensures Trim(s, drop) == s
  {
    if s != [] {
      assert !drop(s[0]);
      assert !drop(s[|s| - 1]);
    }
  }

  /** A character that is not dropped survives in the trimmed string. */
  lemma TrimKeeps(s: string, drop: char -> bool, c: char)
    requires c in s && !drop(c)
    ensures c in Trim(s, drop)
  {
    var a, b := TrimSlice(s, drop);
    var k :| 0 <= k < |s| && s[k] == c;
    assert a <= k < b;
    assert Trim(s, drop)[k - a] == c;
  }

  /** Trimming invents no character. */
  lemma TrimFrom(s: string, drop: char -> bool, c: char)
    requires c in Trim(s, drop)
    ensures c in s
  {
    var a, b := TrimSlice(s, drop);
    var k :| 0 <= k < b - a && s[a..b][k] == c;
    assert s[a + k] == c;
  }

  /** The lowercase mapping of Python's `str.lower()` on ASCII letters. */
  function LowerChar(c: char): (d: char)
    ensures 'A' <= c <= 'Z' ==> d as int == c as int + 32
    ensures !('A' <= c <= 'Z') ==> d == c
  {
    if 'A' <= c <= 'Z' then (c as int + 32) as char else c
  }

  /** Python's `s.lower()` (ASCII letters; every other code point is kept). */
  function Lower(s: string): (r: string)
    ensures |r| == |s|
  {
    seq(|s|, i requires 0 <= i < |s| => LowerChar(s[i]))
  }

  /** Text without ASCII capitals is its own lowercase. */
  lemma LowerNoCapitals(s: string)
    requires forall i :: 0 <= i < |s| ==> !('A' <= s[i] <= 'Z')
    ensures Lower(s) == s
  {
  }

  /** Index of the first `sep` in `s`, or `|s|` when there is none. */
  function IndexOf(s: string, sep: char): (i: nat)
    ensures i <= |s|
    ensures forall k :: 0 <= k < i ==> s[k] != sep
    ensures i < |s| ==> s[i] == sep
    ensures i == |s| <==> sep !in s
  {
    if s == [] then 0 else if s[0] == sep then 0 else 1 + IndexOf(s[1..], sep)
  }

  /** Python's `s.split(sep)` for a one-character separator: the text between
      consecutive separators, empty pieces included. */
  function SplitOn(s: string, sep: char): (parts: seq<string>)
    ensures |parts| >= 1
    ensures forall k :: 0 <= k < |parts| ==> sep !in parts[k]
    ensures sep in s ==> |parts| >= 2
    decreases |s|
  {
    var i := IndexOf(s, sep);
    if i == |s| then [s] else [s[..i]] + SplitOn(s[i + 1..], sep)
  }

  /** Python's `sep.join(parts)`. */
  function Join(parts: seq<string>, sep: string): string
  {
    if |parts| == 0 then ""
    else if |parts| == 1 then parts[0]
    else parts[0] + sep + Join(parts[1..], sep)
  }

  /** Splitting and joining again with the same separator gives back the
      original text. */
  lemma {:induction false} JoinSplitOn(s: string, sep: char)
    ensures Join(SplitOn(s, sep), [sep]) == s
    decreases |s|
  {
    var i := IndexOf(s, sep);
    if i < |s| {
      var rest := s[i + 1..];
      var tail := SplitOn(rest, sep);
      var parts := [s[..i]] + tail;
      JoinSplitOn(rest, sep);
      assert SplitOn(s, sep) == parts;
      assert |parts| >= 2 && parts[0] == s[..i] && parts[1..] == tail;
      assert Join(parts, [sep]) == s[..i] + [sep] + Join(tail, [sep]);
      assert s == s[..i] + [sep] + rest;
    }
  }

  /** Splitting invents no character: every piece's characters come from `s`. */
  lemma {:induction false} SplitOnFrom(s: string, sep: char, k: nat, c: char)
    requires k < |SplitOn(s, sep)| && c in SplitOn(s, sep)[k]
    ensures c in s
    decreases |s|
  {
    var i := IndexOf(s, sep);
    if i < |s| {
      var rest := s[i + 1..];
      var tail := SplitOn(rest, sep);
      assert SplitOn(s, sep) == [s[..i]] + tail;
      if k == 0 {
        assert c in s[..i];
        assert s == s[..i] + s[i..];
      } else {
        assert c in tail[k - 1];
        SplitOnFrom(rest, sep, k - 1, c);
        assert s == s[..i + 1] + rest;
      }
    }
  }

  /** Every character of `s` other than the separator lies in some piece of
      `SplitOn(s, sep)`. */
  lemma {:induction false} SplitOnCovers(s: string, sep: char, c: char)
    requires c in s && c != sep
    ensures exists k :: 0 <= k < |SplitOn(s, sep)| && c in SplitOn(s, sep)[k]
    decreases |s|
  {
    var i := IndexOf(s, sep);
    var parts := SplitOn(s, sep);
    if i == |s| {
      assert c in parts[0];
    } else {
      var rest := s[i + 1..];
      assert parts == [s[..i]] + SplitOn(rest, sep);
      var j :| 0 <= j < |s| && s[j] == c;
      if j < i {
        assert s[..i][j] == c;
        assert c in parts[0];
      } else {
        assert j > i;
        assert rest[j - i - 1] == c;
        SplitOnCovers(rest, sep, c);
        var k :| 0 <= k < |SplitOn(rest, sep)| && c in SplitOn(rest, sep)[k];
        assert parts[k + 1] == SplitOn(rest, sep)[k];
      }
    }
  }

  /** Length of the longest prefix of `s` free of `isSep` characters. */
  function SepFreePrefix(s: string, isSep: char -> bool): (n: nat)
    ensures n <= |s|
    ensures forall i :: 0 <= i < n ==> !isSep(s[i])
    ensures n < |s| ==> isSep(s[n])
  {
    if s == [] || isSep(s[0]) then 0 else 1 + SepFreePrefix(s[1..], isSep)
  }

  /** The maximal runs of non-separator characters of `s`, in order: Python's
      `s.split()` for `isSep == IsSpace`, and `re.split('[...]+', s)` with the
      empty pieces dropped for a character class. */
  function Fields(s: string, isSep: char -> bool): (r: seq<string>)
    ensures forall k :: 0 <= k < |r| ==> r[k] != [] && NoneIn(r[k], isSep)
    decreases |s|
  {
    var t := DropLeading(s, isSep);
    if t == [] then []
    else
      var n := SepFreePrefix(t, isSep);
      [t[..n]] + Fields(t[n..], isSep)
  }

  /** The characters of `s` that are not separators, in order. */
  function Keep(s: string, isSep: char -> bool): string {
    if s == [] then [] else (if isSep(s[0]) then [] else [s[0]]) + Keep(s[1..], isSep)
  }

  /** Concatenation of a sequence of strings. */
  function Concat(parts: seq<string>): string {
    if parts == [] then [] else parts[0] + Concat(parts[1..])
  }

  lemma {:induction false} KeepAppend(a: string, b: string, isSep: char -> bool)
    ensures Keep(a + b, isSep) == Keep(a, isSep) + Keep(b, isSep)
  {
    if a != [] {
      assert (a + b)[0] == a[0];
      assert (a + b)[1..] == a[1..] + b;
      KeepAppend(a[1..], b, isSep);
    } else {
      assert a + b == b;
    }
  }

  lemma {:induction false} KeepAllSep(s: string, isSep: char -> bool)
    requires forall i :: 0 <= i < |s| ==> isSep(s[i])
    ensures Keep(s, isSep) == []
  {
    if s != [] {
      KeepAllSep(s[1..], isSep);
    }
  }

  lemma {:induction false} KeepNoSep(s: string, isSep: char -> bool)
    requires NoneIn(s, isSep)
    ensures Keep(s, isSep) == s
  {
    if s != [] {
      KeepNoSep(s[1..], isSep);
    }
  }

  /** The fields of `s`, laid end to end, are exactly the non-separator
      characters of `s` in their original order: nothing is lost, reordered or
      invented by the split. */
  lemma {:induction false} FieldsConcat(s: string, isSep: char -> bool)
    ensures Concat(Fields(s, isSep)) == Keep(s, isSep)
    decreases |s|
  {
    var t := DropLeading(s, isSep);
    var cut := s[..|s| - |t|];
    assert s == cut + t;
    KeepAppend(cut, t, isSep);
    KeepAllSep(cut, isSep);
    if t != [] {
      var n := SepFreePrefix(t, isSep);
      assert t == t[..n] + t[n..];
      KeepAppend(t[..n], t[n..], isSep);
      KeepNoSep(t[..n], isSep);
      FieldsConcat(t[n..], isSep);
    } else {
      assert Keep(t, isSep) == [];
    }
  }

  /** `w` sits in `s` at position `p` as a whole run: a separator or the
      edge of `s` on either side. */
  predicate RunAt(s: string, isSep: char -> bool, p: nat, w: string) {
    p + |w| <= |s| && s[p..p + |w|] == w
    && (p == 0 || isSep(s[p - 1]))
    && (p + |w| == |s| || isSep(s[p + |w|]))
  }

  /** Each field is a maximal run of non-separators of `s`, and the runs
      appear in order without overlapping: the k-th field starts at `pos[k]`,
      and a separator lies between the end of one field and the start of the
      next. */
  lemma {:induction false} FieldsMaximal(s: string, isSep: char -> bool) returns (pos: seq<nat>)
    ensures |pos| == |Fields(s, isSep)|
    ensures forall k :: 0 <= k < |pos| ==> RunAt(s, isSep, pos[k], Fields(s, isSep)[k])
    ensures forall k, l :: 0 <= k < l < |pos| ==> pos[k] + |Fields(s, isSep)[k]| < pos[l]
    decreases |s|
  {
    if DropLeading(s, isSep) == [] {
      pos := [];
    } else {
      var a, n := FieldsStep(s, isSep);
      var rest := s[a + n..];
      FieldsUnfold(s, isSep);
      var rr := Fields(rest, isSep);
      var tail := FieldsMaximal(rest, isSep);
      pos := PrependRun(s, isSep, a, n, tail, rr);
    }
  }

  /** The first field's run followed by the later fields' runs, which were
      found in the text after it. */
  lemma PrependRun(s: string, isSep: char -> bool, a: nat, n: nat, tail: seq<nat>, rr: seq<string>)
    returns (pos: seq<nat>)
    requires 0 < n && a + n <= |s| && RunAt(s, isSep, a, s[a..a + n])
    requires a + n < |s| ==> isSep(s[a + n])
    requires a + n == |s| ==> rr == []
    requires |tail| == |rr|
    requires forall k :: 0 <= k < |rr| ==> rr[k] != [] && NoneIn(rr[k], isSep)
    requires forall k :: 0 <= k < |tail| ==> RunAt(s[a + n..], isSep, tail[k], rr[k])
    requires forall k, l :: 0 <= k < l < |tail| ==> tail[k] + |rr[k]| < tail[l]
    ensures |pos| == 1 + |rr|
    ensures forall k :: 0 <= k < |pos| ==> RunAt(s, isSep, pos[k], ([s[a..a + n]] + rr)[k])
    ensures forall k, l :: 0 <= k < l < |pos| ==> pos[k] + |([s[a..a + n]] + rr)[k]| < pos[l]
  {
    var r := [s[a..a + n]] + rr;
    var shifted := Shift(tail, a + n);
    pos := [a] + shifted;
    if a + n < |s| {
      ShiftRuns(s, isSep, a + n, tail, rr);
    }
    forall j | 1 <= j < |pos|
      ensures RunAt(s, isSep, pos[j], r[j]) && a + n < pos[j]
    {
      assert pos[j] == shifted[j - 1] && r[j] == rr[j - 1];
    }
    forall k, l | 0 <= k < l < |pos|
      ensures pos[k] + |r[k]| < pos[l]
    {
      assert pos[l] == shifted[l - 1];
      if k > 0 {
        assert pos[k] == shifted[k - 1] && r[k] == rr[k - 1];
      }
    }
  }

  /** One unfolding of `Fields` past its first field. */
  lemma FieldsUnfold(s: string, isSep: char -> bool)
    requires DropLeading(s, isSep) != []
    ensures var t := DropLeading(s, isSep); var n := SepFreePrefix(t, isSep);
      Fields(s, isSep) == [t[..n]] + Fields(t[n..], isSep)
  {
  }

  /** Every position of `ps` moved on by `d`. */
  function Shift(ps: seq<nat>, d: nat): (r: seq<nat>)
    ensures |r| == |ps| && forall i :: 0 <= i < |ps| ==> r[i] == d + ps[i]
  {
    if ps == [] then [] else [d + ps[0]] + Shift(ps[1..], d)
  }

  /** One step of the split: the first field is the whole run at `a`, after
      the leading separators, and the other fields are those of what follows
      it, which starts with a separator. */
  lemma {:induction false} FieldsStep(s: string, isSep: char -> bool) returns (a: nat, n: nat)
    requires DropLeading(s, isSep) != []
    ensures 0 < n && a + n <= |s|
    ensures a == LeadCount(s, isSep) && n == SepFreePrefix(DropLeading(s, isSep), isSep)
    ensures DropLeading(s, isSep)[..n] == s[a..a + n] && DropLeading(s, isSep)[n..] == s[a + n..]
    ensures RunAt(s, isSep, a, s[a..a + n])
    ensures a + n < |s| ==> isSep(s[a + n])
  {
    a := LeadCount(s, isSep);
    var t := DropLeading(s, isSep);
    n := SepFreePrefix(t, isSep);
    assert !isSep(t[0]);
    assert s[a..a + n] == t[..n];
    assert t[n..] == s[a + n..];
    if a + n < |s| {
      assert s[a + n] == t[n];
    }
    if a > 0 {
      assert isSep(s[a - 1]);
    }
  }

  /** RunShift for every run of a list. */
  lemma ShiftRuns(s: string, isSep: char -> bool, m: nat, ps: seq<nat>, ws: seq<string>)
    requires m < |s| && isSep(s[m]) && |ps| == |ws|
    requires forall k :: 0 <= k < |ws| ==> ws[k] != [] && NoneIn(ws[k], isSep)
    requires forall k :: 0 <= k < |ps| ==> RunAt(s[m..], isSep, ps[k], ws[k])
    ensures forall k :: 0 <= k < |ps| ==> RunAt(s, isSep, Shift(ps, m)[k], ws[k]) && m < Shift(ps, m)[k]
  {
    forall k | 0 <= k < |ps| ensures RunAt(s, isSep, Shift(ps, m)[k], ws[k]) && m < Shift(ps, m)[k] {
      assert !isSep(ws[k][0]);
      RunShift(s, isSep, m, ps[k], ws[k]);
    }
  }

  /** A whole run of `s[m..]` that does not start at the separator `s[m]` is
      a whole run of `s`, shifted by `m`. */
  lemma RunShift(s: string, isSep: char -> bool, m: nat, p: nat, w: string)
    requires m < |s| && isSep(s[m]) && w != [] && !isSep(w[0])
    requires RunAt(s[m..], isSep, p, w)
    ensures RunAt(s, isSep, m + p, w) && m < m + p
  {
    var rest := s[m..];
    assert rest[p] == w[0];
    assert s[m + p..m + p + |w|] == rest[p..p + |w|];
    assert s[m + p - 1] == rest[p - 1];
    if p + |w| < |rest| {
      assert s[m + p + |w|] == rest[p + |w|];
    }
  }

  /** Python's `w in s` for strings: `w` occurs in `s` as a contiguous piece,
      that is, it is a prefix of some suffix of `s`. */
  function ContainsSub(s: string, w: string): (b: bool)
    ensures b <==> exists i :: 0 <= i <= |s| && w <= s[i..]
  {
    if w <= s then
      assert s[0..] == s;
      true
    else if s == [] then false
    else
      var b := ContainsSub(s[1..], w);
      assert forall i :: 1 <= i <= |s| ==> s[i..] == s[1..][i - 1..];
      b
  }

  function DigitChar(d: nat): (c: char)
    requires d < 10
    ensures '0' <= c <= '9' && c as int - '0' as int == d
  {
    ('0' as int + d) as char
  }

  /** Python's `str(n)` for a non-negative integer. */
  function NatToDecimal(n: nat): (r: string)
    ensures r != [] && forall i :: 0 <= i < |r| ==> '0' <= r[i] <= '9'
  {
    (if n < 10 then "" else NatToDecimal(n / 10)) + [DigitChar(n % 10)]
  }

  /** Python's `str(i)` for an integer. */
  function IntToDecimal(i: int): (r: string)
    ensures r != []
    ensures forall k :: 0 <= k < |r| ==> r[k] == '-' || '0' <= r[k] <= '9'
  {
    if i < 0 then "-" + NatToDecimal(-i) else NatToDecimal(i)
  }
}
