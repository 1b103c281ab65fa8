/**
 * The few Python `str` and `os.path` operations the core relies on, on
 * `string` (= `seq<char>`): `startswith`, `endswith`, `in` (substring),
 * `os.path.basename`, `split()`, `strip(c)`, `replace`, `lower()`.
 */
module Strings {
  import opened Outcomes

  predicate StartsWith(s: string, prefix: string) {
    |prefix| <= |s| && s[..|prefix|] == prefix
  }

  predicate EndsWith(s: string, suffix: string) {
    |suffix| <= |s| && s[|s| - |suffix|..] == suffix
  }

  /** Python's `part in s`. */
  predicate Contains(s: string, part: string)
    decreases |s|
  {
    StartsWith(s, part) || (|s| > 0 && Contains(s[1..], part))
  }

  /** `part` occurs in `s` starting at offset `i`. */
  predicate OccursAt(s: string, part: string, i: int) {
    0 <= i <= |s| - |part| && s[i..i + |part|] == part
  }

  /** `Contains` holds exactly when `part` occurs at some offset of `s`. */
  lemma {:induction false} ContainsAt(s: string, part: string)
    ensures Contains(s, part) <==> exists i :: OccursAt(s, part, i)
    decreases |s|
  {
    if StartsWith(s, part) {
      assert OccursAt(s, part, 0);
    }
    if |s| > 0 {
      ContainsAt(s[1..], part);
      if Contains(s[1..], part) {
        var i :| OccursAt(s[1..], part, i);
        assert s[i + 1..i + 1 + |part|] == s[1..][i..i + |part|];
        assert OccursAt(s, part, i + 1);
      }
      if i :| OccursAt(s, part, i) {
        if i > 0 {
          assert s[1..][i - 1..i - 1 + |part|] == s[i..i + |part|];
          assert OccursAt(s[1..], part, i - 1);
        } else {
          assert StartsWith(s, part);
        }
      }
    } else {
      if i :| OccursAt(s, part, i) {
        assert i == 0 && StartsWith(s, part);
      }
    }
  }

  /** A string ends with, hence contains, whatever was appended last. */
  lemma {:induction false} ContainsAppended(a: string, b: string)
    ensures Contains(a + b, b)
    decreases |a|
  {
    if |a| == 0 {
      assert a + b == b;
    } else {
      assert (a + b)[1..] == a[1..] + b;
      ContainsAppended(a[1..], b);
    }
  }

  /** The first of `names` that belongs to `present` (a file's present or dimensions). */
  function FirstPresent(names: seq<string>, present: set<string>): (r: Option<string>)
    ensures r.Some? ==> r.value in present && r.value in names
    ensures r.None? <==> forall k :: 0 <= k < |names| ==> names[k] !in present
  {
    if names == [] then None
    else if names[0] in present then Some(names[0])
    else FirstPresent(names[1..], present)
  }

  /** No name before the one found is present. */
  lemma {:induction false} FirstPresentIsFirst(names: seq<string>, present: set<string>)
    requires FirstPresent(names, present).Some?
    ensures exists k :: (0 <= k < |names| && names[k] == FirstPresent(names, present).value
      && forall j :: 0 <= j < k ==> names[j] !in present)
  {
    if names[0] !in present {
      FirstPresentIsFirst(names[1..], present);
      var k :| 0 <= k < |names[1..]| && names[1..][k] == FirstPresent(names, present).value
        && forall j :: 0 <= j < k ==> names[1..][j] !in present;
      assert names[k + 1] == FirstPresent(names, present).value;
      assert forall j :: 1 <= j < k + 1 ==> names[j] == names[1..][j - 1];
    } else {
      assert names[0] == FirstPresent(names, present).value;
    }
  }

  /** `os.path.basename`: everything after the last '/'. */
  function Basename(path: string): (name: string)
    ensures '/' !in name
    ensures EndsWith(path, name)
    ensures |name| < |path| ==> path[|path| - |name| - 1] == '/'
    decreases |path|
  {
    if path == [] then []
    else if path[|path| - 1] == '/' then []
    else Basename(path[..|path| - 1]) + [path[|path| - 1]]
  }

  /** A name without '/' is its own basename. */
  lemma {:induction false} BasenameOfPlainName(name: string)
    requires '/' !in name
    ensures Basename(name) == name
    decreases |name|
  {
    if name != [] {
      assert name[|name| - 1] in name;
      BasenameOfPlainName(name[..|name| - 1]);
      assert name[..|name| - 1] + [name[|name| - 1]] == name;
    }
  }

  /** Directory components never change the basename. */
  lemma {:induction false} BasenameIgnoresDirectory(dir: string, name: string)
    ensures Basename(dir + "/" + name) == Basename(name)
    decreases |name|
  {
    var p := dir + "/" + name;
    if name == [] {
      assert p[|p| - 1] == '/';
    } else {
      assert p[..|p| - 1] == dir + "/" + name[..|name| - 1];
      assert p[|p| - 1] == name[|name| - 1];
      BasenameIgnoresDirectory(dir, name[..|name| - 1]);
    }
  }

  /** Python's `str.isspace` for one character, as `str.split()` uses it. */
  predicate IsSpace(c: char) {
    ('\t' <= c <= '\r') || ('\U{1c}' <= c <= ' ') || c == '\U{85}' || c == '\U{a0}'
    || c == '\U{1680}' || ('\U{2000}' <= c <= '\U{200a}') || c == '\U{2028}' || c == '\U{2029}'
    || c == '\U{202f}' || c == '\U{205f}' || c == '\U{3000}'
  }

  /** Length of the run of non-space characters that starts `s`. */
  function WordLength(s: string): (n: nat)
    ensures n <= |s|
    ensures forall i :: 0 <= i < n ==> !IsSpace(s[i])
    ensures n < |s| ==> IsSpace(s[n])
    decreases |s|
  {
    if s == [] || IsSpace(s[0]) then 0 else 1 + WordLength(s[1..])
  }

  /** Python's `str.split()` with no separator: maximal runs of non-space characters. */
  function Split(s: string): (words: seq<string>)
    ensures forall w :: w in words ==> w != [] && forall c :: c in w ==> !IsSpace(c)
    decreases |s|
  {
    if s == [] then []
    else if IsSpace(s[0]) then Split(s[1..])
    else
      var n := WordLength(s);
      [s[..n]] + Split(s[n..])
  }

  /** A non-empty run of non-space characters: what `split()` yields. */
  predicate IsWord(w: string) {
    w != [] && forall i :: 0 <= i < |w| ==> !IsSpace(w[i])
  }

  /** `' '.join(words)`. */
  function JoinWords(words: seq<string>): string {
    if words == [] then []
    else if |words| == 1 then words[0]
    else words[0] + " " + JoinWords(words[1..])
  }

  lemma {:induction false} WordLengthOfWord(w: string, rest: string)
    requires forall i :: 0 <= i < |w| ==> !IsSpace(w[i])
    requires rest == [] || IsSpace(rest[0])
    ensures WordLength(w + rest) == |w|
    decreases |w|
  {
    if w == [] {
      assert w + rest == rest;
    } else {
      assert (w + rest)[0] == w[0] && (w + rest)[1..] == w[1..] + rest;
      WordLengthOfWord(w[1..], rest);
    }
  }

  /** A word followed by a space (or nothing) is split off whole. */
  lemma SplitWord(w: string, rest: string)
    requires IsWord(w) && (rest == [] || IsSpace(rest[0]))
    ensures Split(w + rest) == [w] + Split(rest)
  {
    WordLengthOfWord(w, rest);
    var s := w + rest;
    assert s[..|w|] == w && s[|w|..] == rest;
  }

  /** Splitting words joined by single spaces gives the words back. */
  lemma {:induction false} SplitJoin(words: seq<string>)
    requires forall k :: 0 <= k < |words| ==> IsWord(words[k])
    ensures Split(JoinWords(words)) == words
    decreases |words|
  {
    if |words| == 1 {
      SplitWord(words[0], []);
      assert words[0] + [] == words[0];
    } else if |words| > 1 {
      var rest := JoinWords(words[1..]);
      SplitJoin(words[1..]);
      assert " " + rest == [' '] + rest;
      SplitWord(words[0], " " + rest);
      assert (" " + rest)[1..] == rest;
      assert words[0] + " " + rest == words[0] + (" " + rest);
    }
  }

  /** A character other than the space that no word contains does not occur in the joined words. */
  lemma {:induction false} JoinWordsAvoids(words: seq<string>, c: char)
    requires c != ' ' && forall k :: 0 <= k < |words| ==> c !in words[k]
    ensures c !in JoinWords(words)
    decreases |words|
  {
    if |words| > 1 {
      JoinWordsAvoids(words[1..], c);
    }
  }

  /** Python's `s.strip(c)` for a single character `c`. */
  function Strip(s: string, c: char): (r: string)
    ensures |r| <= |s|
    ensures forall i :: 0 <= i < |r| ==> r[i] in s
    ensures r == [] || (r[0] != c && r[|r| - 1] != c)
    ensures s == [] || (s[0] != c && s[|s| - 1] != c) ==> r == s
  {
    var l := StripLeft(s, c);
    StripRight(s[l..], c)
  }

  function StripLeft(s: string, c: char): (n: nat)
    ensures n <= |s| && (n < |s| ==> s[n] != c)
    ensures forall i :: 0 <= i < n ==> s[i] == c
    decreases |s|
  {
    if s == [] || s[0] != c then 0 else 1 + StripLeft(s[1..], c)
  }

  function StripRight(s: string, c: char): (r: string)
    ensures |r| <= |s| && r == s[..|r|]
    ensures r == [] || r[|r| - 1] != c
    ensures forall i :: |r| <= i < |s| ==> s[i] == c
    ensures r != [] && s != [] ==> r[0] == s[0]
    decreases |s|
  {
    if s == [] || s[|s| - 1] != c then s else StripRight(s[..|s| - 1], c)
  }

  /** Python's `s.replace(a, b)` for single characters. */
  function ReplaceChar(s: string, a: char, b: char): (r: string)
    ensures |r| == |s|
    ensures forall i :: 0 <= i < |s| ==> r[i] == if s[i] == a then b else s[i]
  {
    seq(|s|, i requires 0 <= i < |s| => if s[i] == a then b else s[i])
  }

  /** Python's `s.replace(c, '')`. */
  function RemoveChar(s: string, c: char): (r: string)
    ensures c !in r
    ensures forall x :: x in r <==> x in s && x != c
    decreases |s|
  {
    if s == [] then []
    else (if s[0] == c then [] else [s[0]]) + RemoveChar(s[1..], c)
  }

  /** `str.lower()` restricted to ASCII letters. */
  function Lower(s: string): (r: string)
    ensures |r| == |s|
  {
    seq(|s|, i requires 0 <= i < |s| => if 'A' <= s[i] <= 'Z' then (s[i] as int + 32) as char else s[i])
  }

  /** Stripping `c` from a string with `c` appended gives back a string whose ends are not `c`. */
  lemma StripAppended(u: string, c: char)
    requires u == [] || (u[0] != c && u[|u| - 1] != c)
    ensures Strip(u + [c], c) == u
  {
    var s := u + [c];
    if u == [] {
      assert StripLeft(s, c) == 1;
      assert s[1..] == [];
    } else {
      assert s[0] == u[0];
      assert StripLeft(s, c) == 0;
      assert s[..|s| - 1] == u;
      assert s[0..] == s;
    }
  }

  lemma ReplaceAbsent(s: string, a: char, b: char)
    requires a !in s
    ensures ReplaceChar(s, a, b) == s
  { }

  lemma {:induction false} RemoveAbsent(s: string, c: char)
    requires c !in s
    ensures RemoveChar(s, c) == s
    decreases |s|
  {
    if s != [] {
      assert s[1..] == s[1..] && c !in s[1..];
      RemoveAbsent(s[1..], c);
      assert s == [s[0]] + s[1..];
    }
  }
}
