/**
 * The few Python `str` operations the application relies on, on `seq<char>`:
 * strip/lower, prefix and suffix tests, substring search, `rfind`,
 * `os.path.basename`, `os.path.splitext`, `split` and `join`.
 */
module Text {

  /** Python's `str.isspace()`: the characters `strip()` removes by default. */
  predicate IsSpace(c: char) {
    var n := c as int;
    (9 <= n <= 13) || (28 <= n <= 32) || n == 0x85 || n == 0xA0 || n == 0x1680
    || (0x2000 <= n <= 0x200A) || n == 0x2028 || n == 0x2029 || n == 0x202F
    || n == 0x205F || n == 0x3000
  }

  predicate IsSlash(c: char) { c == '/' }

  /** Drops the leading characters satisfying `drop` (`lstrip`). */
  function TrimLeft(s: string, drop: char -> bool): (r: string)
    ensures |r| <= |s| && r == s[|s| - |r|..]
    decreases |s|
  {
    if s != [] && drop(s[0]) then TrimLeft(s[1..], drop) else s
  }

  /** `lstrip` drops only characters satisfying `drop`, and stops at one that does not. */
  lemma {:induction false} TrimLeftSpec(s: string, drop: char -> bool)
    ensures forall i :: 0 <= i < |s| - |TrimLeft(s, drop)| ==> drop(s[i])
    ensures TrimLeft(s, drop) != [] ==> !drop(TrimLeft(s, drop)[0])
    decreases |s|
  {
    if s != [] && drop(s[0]) {
      var t := s[1..];
      TrimLeftSpec(t, drop);
      assert TrimLeft(s, drop) == TrimLeft(t, drop);
      forall i | 1 <= i < |s| - |TrimLeft(t, drop)| ensures drop(s[i]) {
        assert s[i] == t[i - 1];
      }
    }
  }

  /** Drops the trailing characters satisfying `drop` (`rstrip`). */
  function TrimRight(s: string, drop: char -> bool): (r: string)
    ensures |r| <= |s| && r == s[..|r|]
    decreases |s|
  {
    if s != [] && drop(s[|s| - 1]) then TrimRight(s[..|s| - 1], drop) else s
  }

  /** `rstrip` drops only characters satisfying `drop`, and stops at one that does not. */
  lemma {:induction false} TrimRightSpec(s: string, drop: char -> bool)
    ensures forall i :: |TrimRight(s, drop)| <= i < |s| ==> drop(s[i])
    ensures TrimRight(s, drop) != [] ==> !drop(TrimRight(s, drop)[|TrimRight(s, drop)| - 1])
    decreases |s|
  {
    if s != [] && drop(s[|s| - 1]) {
      var t := s[..|s| - 1];
      TrimRightSpec(t, drop);
      assert TrimRight(s, drop) == TrimRight(t, drop);
      forall i | |TrimRight(t, drop)| <= i < |s| - 1 ensures drop(s[i]) {
        assert s[i] == t[i];
      }
    }
  }

  function Trim(s: string, drop: char -> bool): string {
    TrimRight(TrimLeft(s, drop), drop)
  }

  /** `s.strip()` */
  function Strip(s: string): string { Trim(s, IsSpace) }

  /** `s.strip('/')` */
  function StripSlashes(s: string): string { Trim(s, IsSlash) }

  /** True iff `s.strip()` is empty, i.e. `s` is falsy once stripped. */
  predicate IsBlank(s: string) { |Strip(s)| == 0 }

  lemma TrimEnds(s: string, drop: char -> bool)
    ensures var r := Trim(s, drop);
      (r != [] ==> !drop(r[0]) && !drop(r[|r| - 1]))
      && (r == [] <==> forall i :: 0 <= i < |s| ==> drop(s[i]))
  {
    TrimKeepsEnds(s, drop);
    TrimEmptyIffAllDropped(s, drop);
  }

  lemma TrimKeepsEnds(s: string, drop: char -> bool)
    ensures var r := Trim(s, drop);
      r != [] ==> !drop(r[0]) && !drop(r[|r| - 1])
  {
    var l := TrimLeft(s, drop);
    var r := TrimRight(l, drop);
    TrimLeftSpec(s, drop);
    TrimRightSpec(l, drop);
    if r != [] {
      assert r[0] == l[0];
    }
  }

  lemma TrimEmptyIffAllDropped(s: string, drop: char -> bool)
    ensures Trim(s, drop) == [] <==> forall i :: 0 <= i < |s| ==> drop(s[i])
  {
    var l := TrimLeft(s, drop);
    var r := TrimRight(l, drop);
    TrimLeftSpec(s, drop);
    TrimRightSpec(l, drop);
    if r == [] {
      assert l == [];
    }
  }

  /** Stripping is idempotent. */
  lemma {:induction false} StripIdempotent(s: string)
    ensures Strip(Strip(s)) == Strip(s)
  {
    var r := Strip(s);
    TrimEnds(s, IsSpace);
    if r != [] {
      assert TrimLeft(r, IsSpace) == r;
      assert TrimRight(r, IsSpace) == r;
    }
  }

  /** A string is blank exactly when all its characters are whitespace. */
  lemma BlankIffAllSpace(s: string)
    ensures IsBlank(s) <==> forall i :: 0 <= i < |s| ==> IsSpace(s[i])
  {
    TrimEnds(s, IsSpace);
  }

  /** A string with no whitespace at either end strips to itself. */
  lemma StripNoOp(s: string)
    requires s != [] ==> !IsSpace(s[0]) && !IsSpace(s[|s| - 1])
    ensures Strip(s) == s
  {
  }

  /** Python's `str.lower()` on ASCII letters; other characters are kept. */
  function LowerChar(c: char): char {
    if 'A' <= c <= 'Z' then (c as int + 32) as char else c
  }

  function Lower(s: string): (r: string)
    ensures |r| == |s|
    ensures forall i :: 0 <= i < |s| ==> r[i] == LowerChar(s[i])
  {
    seq(|s|, i requires 0 <= i < |s| => LowerChar(s[i]))
  }

  lemma LowerIdempotent(s: string)
    ensures Lower(Lower(s)) == Lower(s)
  {
  }

  /** A word of lower-case ASCII letters and digits survives `strip().lower()`. */
  lemma LowerStripFixed(w: string)
    requires forall i :: 0 <= i < |w| ==> 'a' <= w[i] <= 'z' || '0' <= w[i] <= '9'
    ensures Lower(Strip(w)) == w
  {
    if |w| > 0 {
      assert !IsSpace(w[0]) && !IsSpace(w[|w| - 1]);
    }
    StripNoOp(w);
    assert Lower(w) == w;
  }

  predicate StartsWith(s: string, prefix: string) {
    |prefix| <= |s| && s[..|prefix|] == prefix
  }

  predicate EndsWith(s: string, suffix: string) {
    |suffix| <= |s| && s[|s| - |suffix|..] == suffix
  }

  /** Python's `sub in s`. */
  predicate Contains(s: string, sub: string)
    decreases |s|
  {
    StartsWith(s, sub) || (s != [] && Contains(s[1..], sub))
  }

  /** Python's `s.rfind(c)`: the last index of `c`, or -1. */
  function RFind(s: string, c: char): (r: int)
    ensures -1 <= r < |s|
    ensures r >= 0 ==> s[r] == c
    ensures forall i :: r < i < |s| ==> s[i] != c
    decreases |s|
  {
    if s == [] then -1
    else if s[|s| - 1] == c then |s| - 1
    else RFind(s[..|s| - 1], c)
  }

  /** Python's `s.find(c)`: the first index of `c`, or -1. */
  function Find(s: string, c: char): (r: int)
    ensures -1 <= r < |s|
    ensures r >= 0 ==> s[r] == c
    ensures forall i :: 0 <= i < |s| && (r < 0 || i < r) ==> s[i] != c
    decreases |s|
  {
    if s == [] then -1
    else if s[0] == c then 0
    else var k := Find(s[1..], c); if k < 0 then -1 else k + 1
  }

  /** The text after the last `c`, or all of `s`: `s.rsplit(c, 1)[-1]`. */
  function AfterLast(s: string, c: char): (r: string)
    ensures c !in r
    ensures EndsWith(s, r)
  {
    var k := RFind(s, c);
    s[k + 1..]
  }

  /** `os.path.basename` (POSIX): the text after the last '/'. */
  function Basename(p: string): string { AfterLast(p, '/') }

  /**
   * `os.path.splitext` (POSIX). The extension starts at the last '.' after
   * the last '/', provided some character of the file name before that dot
   * is not itself a dot (so ".bashrc" has no extension).
   */
  function SplitExt(p: string): (r: (string, string))
    ensures r.0 + r.1 == p
    ensures r.1 == [] || (r.1[0] == '.' && '/' !in r.1)
  {
    var sep := RFind(p, '/');
    var dot := RFind(p, '.');
    if dot > sep && exists k :: sep + 1 <= k < dot && p[k] != '.' then
      assert p[..dot] + p[dot..] == p;
      (p[..dot], p[dot..])
    else
      (p, "")
  }

  /** The extension part of `os.path.splitext(p)`. */
  function Ext(p: string): string { SplitExt(p).1 }

  /** Python's `s.split(sep)` for a one-character separator. */
  function Split(s: string, sep: char): (parts: seq<string>)
    ensures |parts| >= 1
    ensures forall i :: 0 <= i < |parts| ==> sep !in parts[i]
    decreases |s|
  {
    var k := Find(s, sep);
    if k < 0 then [s]
    else
      var head, rest := s[..k], Split(s[k + 1..], sep);
      assert sep !in head by {
        forall i | 0 <= i < |head| ensures head[i] != sep {
          assert head[i] == s[i];
        }
      }
      assert forall i :: 1 <= i < |rest| + 1 ==> ([head] + rest)[i] == rest[i - 1];
      [head] + rest
  }

  /** Python's `sep.join(parts)`. */
  function Join(parts: seq<string>, sep: string): string {
    if parts == [] then ""
    else if |parts| == 1 then parts[0]
    else parts[0] + sep + Join(parts[1..], sep)
  }

  /** Splitting at a character and joining back with it gives the input. */
  lemma {:induction false} JoinSplit(s: string, sep: char)
    ensures Join(Split(s, sep), [sep]) == s
    decreases |s|
  {
    var k := Find(s, sep);
    if k >= 0 {
      var rest := s[k + 1..];
      JoinSplit(rest, sep);
      assert s == s[..k] + [sep] + rest;
    }
  }
}
