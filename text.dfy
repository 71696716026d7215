/** Characters and strings as JavaScript's `String` methods and regular expressions see them. */
module Text {

  /** The characters `\s` matches in a JavaScript regular expression and `String.prototype.trim`
      removes: ECMAScript's WhiteSpace and LineTerminator characters. */
  predicate IsSpace(c: char) {
    || c == ' ' || c == '\t' || c == '\n' || c == '\r' || c == '\U{000B}' || c == '\U{000C}'
    || c == '\U{00A0}' || c == '\U{1680}' || ('\U{2000}' <= c <= '\U{200A}')
    || c == '\U{2028}' || c == '\U{2029}' || c == '\U{202F}' || c == '\U{205F}'
    || c == '\U{3000}' || c == '\U{FEFF}'
  }

  /** The characters that `.` in a regular expression does not match. */
  predicate IsLineTerminator(c: char) {
    c == '\n' || c == '\r' || c == '\U{2028}' || c == '\U{2029}'
  }

  predicate IsDigit(c: char) { '0' <= c <= '9' }

  predicate IsUpperAscii(c: char) { 'A' <= c <= 'Z' }

  predicate IsLowerAscii(c: char) { 'a' <= c <= 'z' }

  /** `\w`: the characters that count as word characters for a `\b` boundary. */
  predicate IsWordChar(c: char) {
    IsUpperAscii(c) || IsLowerAscii(c) || IsDigit(c) || c == '_'
  }

  /** `toLowerCase` on one character (ASCII letters only). */
  function LowerChar(c: char): (r: char)
    ensures IsWordChar(r) == IsWordChar(c)
    ensures !IsUpperAscii(r)
    ensures IsSpace(r) == IsSpace(c)
  {
    if IsUpperAscii(c) then (c as int + 32) as char else c
  }

  /** `toUpperCase` on one character (ASCII letters only). */
  function UpperChar(c: char): (r: char)
    ensures IsWordChar(r) == IsWordChar(c)
    ensures !IsLowerAscii(r)
  {
    if IsLowerAscii(c) then (c as int - 32) as char else c
  }

  function Lower(s: string): (r: string)
    ensures |r| == |s|
    ensures forall i :: 0 <= i < |s| ==> r[i] == LowerChar(s[i])
  {
    seq(|s|, i requires 0 <= i < |s| => LowerChar(s[i]))
  }

  function Upper(s: string): (r: string)
    ensures |r| == |s|
    ensures forall i :: 0 <= i < |s| ==> r[i] == UpperChar(s[i])
  {
    seq(|s|, i requires 0 <= i < |s| => UpperChar(s[i]))
  }

  /** `w` occurs in `s` starting at index `i`. */
  predicate At(s: string, i: int, w: string) {
    0 <= i && i + |w| <= |s| && forall k | 0 <= k < |w| :: s[i + k] == w[k]
  }

  /** `s.includes(w)`. */
  predicate Includes(s: string, w: string) {
    exists i | 0 <= i <= |s| :: At(s, i, w)
  }

  /** `w` occurs at index `i` of `s` when ASCII case is ignored (a regular expression's `i` flag). */
  predicate AtCI(s: string, i: int, w: string) {
    0 <= i && i + |w| <= |s| && forall k | 0 <= k < |w| :: LowerChar(s[i + k]) == LowerChar(w[k])
  }

  /** Where `w` occurs, ignoring case, so does whatever occurs inside `w`. */
  lemma AtCIInside(s: string, i: int, w: string, v: string, d: nat)
    requires AtCI(s, i, w) && At(w, d, v)
    ensures AtCI(s, i + d, v)
  {
    forall k | 0 <= k < |v|
      ensures LowerChar(s[i + d + k]) == LowerChar(v[k])
    {
      assert LowerChar(s[i + (d + k)]) == LowerChar(w[d + k]);
    }
  }

  /** Whatever occurs inside an occurring string occurs too. */
  lemma IncludesInside(s: string, w: string, v: string, d: nat)
    requires Includes(s, w) && At(w, d, v)
    ensures Includes(s, v)
  {
    var i :| 0 <= i <= |s| && At(s, i, w);
    forall k | 0 <= k < |v|
      ensures s[i + d + k] == v[k]
    {
      assert s[i + (d + k)] == w[d + k];
    }
    assert At(s, i + d, v);
  }

  /** `/w/i.test(s)` for a pattern `w` without metacharacters. */
  predicate ContainsCI(s: string, w: string) {
    exists i | 0 <= i <= |s| :: AtCI(s, i, w)
  }

  /** The character at index `k` exists and is a word character. */
  predicate WordAt(s: string, k: int) {
    0 <= k < |s| && IsWordChar(s[k])
  }

  /** `\b` holds between index `k - 1` and index `k` of `s`. */
  predicate Boundary(s: string, k: int) {
    WordAt(s, k - 1) != WordAt(s, k)
  }

  /** `new RegExp("\\b" + w + "\\b", "i").test(s)`. */
  predicate HasWordCI(s: string, w: string) {
    exists i | 0 <= i <= |s| :: AtCI(s, i, w) && Boundary(s, i) && Boundary(s, i + |w|)
  }

  /** `w` is a non-empty run of word characters, as every keyword tested with `\b` is. */
  predicate IsWord(w: string) {
    |w| > 0 && forall k | 0 <= k < |w| :: IsWordChar(w[k])
  }

  lemma AtCIInPrefix(a: string, b: string, i: int, w: string)
    requires 0 <= i && i + |w| <= |a|
    ensures AtCI(a + b, i, w) <==> AtCI(a, i, w)
  {
  }

  lemma AtCIInSuffix(a: string, b: string, j: int, w: string)
    requires 0 <= j
    ensures AtCI(a + b, |a| + j, w) <==> AtCI(b, j, w)
  {
  }

  /** An occurrence of a word cannot cover a non-word character. */
  lemma WordOccurrenceAvoids(s: string, i: int, w: string, p: int)
    requires IsWord(w) && AtCI(s, i, w)
    requires i <= p < i + |w|
    ensures IsWordChar(s[p])
  {
    var k := p - i;
    assert LowerChar(s[i + k]) == LowerChar(w[k]);
  }

  /** A whole word never spans a non-word character, so it is found in `a + b` exactly when it is
      found in `a` or in `b`, provided `a` ends in a non-word character. */
  lemma HasWordConcat(a: string, b: string, w: string)
    requires IsWord(w)
    requires a == [] || !IsWordChar(a[|a| - 1])
    ensures HasWordCI(a + b, w) <==> HasWordCI(a, w) || HasWordCI(b, w)
  {
    if HasWordCI(a + b, w) {
      HasWordConcatSplit(a, b, w);
    }
    if HasWordCI(a, w) {
      HasWordConcatLeft(a, b, w);
    }
    if HasWordCI(b, w) {
      HasWordConcatRight(a, b, w);
    }
  }

  /** A whole word of `a` stays one when `b` follows a non-word character. */
  lemma HasWordConcatLeft(a: string, b: string, w: string)
    requires IsWord(w)
    requires a == [] || !IsWordChar(a[|a| - 1])
    requires HasWordCI(a, w)
    ensures HasWordCI(a + b, w)
  {
    var i :| 0 <= i <= |a| && AtCI(a, i, w) && Boundary(a, i) && Boundary(a, i + |w|);
    if i + |w| == |a| {
      WordOccurrenceAvoids(a, i, w, |a| - 1);
    }
    AtCIInPrefix(a, b, i, w);
    assert Boundary(a + b, i) && Boundary(a + b, i + |w|);
  }

  /** A whole word of `b` stays one after a text that ends in a non-word character. */
  lemma HasWordConcatRight(a: string, b: string, w: string)
    requires IsWord(w)
    requires a == [] || !IsWordChar(a[|a| - 1])
    requires HasWordCI(b, w)
    ensures HasWordCI(a + b, w)
  {
    var j :| 0 <= j <= |b| && AtCI(b, j, w) && Boundary(b, j) && Boundary(b, j + |w|);
    AtCIInSuffix(a, b, j, w);
    assert Boundary(a + b, |a| + j) && Boundary(a + b, |a| + j + |w|);
  }

  lemma HasWordConcatSplit(a: string, b: string, w: string)
    requires IsWord(w)
    requires a == [] || !IsWordChar(a[|a| - 1])
    requires HasWordCI(a + b, w)
    ensures HasWordCI(a, w) || HasWordCI(b, w)
  {
    var s := a + b;
    var i :| 0 <= i <= |s| && AtCI(s, i, w) && Boundary(s, i) && Boundary(s, i + |w|);
    if i < |a| {
      SplitWordInPrefix(a, b, w, i);
    } else {
      SplitWordInSuffix(a, b, w, i - |a|);
    }
  }

  /** A whole word of `a + b` that starts inside `a` ends inside `a`, and is a whole word there. */
  lemma SplitWordInPrefix(a: string, b: string, w: string, i: nat)
    requires IsWord(w)
    requires a == [] || !IsWordChar(a[|a| - 1])
    requires i < |a| && AtCI(a + b, i, w) && Boundary(a + b, i) && Boundary(a + b, i + |w|)
    ensures HasWordCI(a, w)
  {
    if i + |w| >= |a| {
      WordOccurrenceAvoids(a + b, i, w, |a| - 1);
    }
    AtCIInPrefix(a, b, i, w);
    assert Boundary(a, i) && Boundary(a, i + |w|);
  }

  /** A whole word of `a + b` that starts at `|a| + j` is a whole word of `b` at `j`. */
  lemma SplitWordInSuffix(a: string, b: string, w: string, j: nat)
    requires a == [] || !IsWordChar(a[|a| - 1])
    requires |a| + j <= |a + b| && AtCI(a + b, |a| + j, w)
    requires Boundary(a + b, |a| + j) && Boundary(a + b, |a| + j + |w|)
    ensures HasWordCI(b, w)
  {
    AtCIInSuffix(a, b, j, w);
    assert Boundary(b, j) && Boundary(b, j + |w|);
  }

  /** Appending a non-word character neither creates nor destroys a whole-word match. */
  lemma HasWordAppend(a: string, c: char, w: string)
    requires IsWord(w)
    requires !IsWordChar(c)
    ensures HasWordCI(a + [c], w) <==> HasWordCI(a, w)
  {
    var s := a + [c];
    if HasWordCI(s, w) {
      var i :| 0 <= i <= |s| && AtCI(s, i, w) && Boundary(s, i) && Boundary(s, i + |w|);
      if i + |w| > |a| {
        WordOccurrenceAvoids(s, i, w, i + |w| - 1);
      }
      AtCIInPrefix(a, [c], i, w);
      assert Boundary(a, i) && Boundary(a, i + |w|);
    }
    if HasWordCI(a, w) {
      var i :| 0 <= i <= |a| && AtCI(a, i, w) && Boundary(a, i) && Boundary(a, i + |w|);
      AtCIInPrefix(a, [c], i, w);
      assert Boundary(s, i) && Boundary(s, i + |w|);
    }
  }

  /** `s.trimStart()`. */
  function TrimStart(s: string): (r: string)
    ensures |r| <= |s| && r == s[|s| - |r|..]
    ensures r == [] || !IsSpace(r[0])
    ensures forall k | 0 <= k < |s| - |r| :: IsSpace(s[k])
    decreases |s|
  {
    if |s| > 0 && IsSpace(s[0]) then TrimStart(s[1..]) else s
  }

  /** `s.trimEnd()`. */
  function TrimEnd(s: string): (r: string)
    ensures |r| <= |s| && r == s[..|r|]
    ensures r == [] || !IsSpace(r[|r| - 1])
    ensures forall k | |r| <= k < |s| :: IsSpace(s[k])
    decreases |s|
  {
    if |s| > 0 && IsSpace(s[|s| - 1]) then TrimEnd(s[..|s| - 1]) else s
  }

  /** `s.trim()`: `s` without its leading and trailing whitespace. */
  function Trim(s: string): (r: string)
    ensures r == [] || (!IsSpace(r[0]) && !IsSpace(r[|r| - 1]))
    ensures forall c :: c in r ==> c in s
    ensures |r| <= |s|
  {
    TrimEnd(TrimStart(s))
  }

  /** Trimming is idempotent. */
  lemma TrimIdempotent(s: string)
    ensures Trim(Trim(s)) == Trim(s)
  {
    var r := Trim(s);
    assert TrimStart(r) == r;
  }

  /** `Trim(s)` is empty exactly when every character of `s` is whitespace. */
  lemma TrimEmpty(s: string)
    ensures Trim(s) == [] <==> forall k | 0 <= k < |s| :: IsSpace(s[k])
  {
    var t := TrimStart(s);
    if Trim(s) == [] {
      assert t == [];
    }
  }

  /** `s.substring(0, n)`. */
  function Take(s: string, n: nat): (r: string)
    ensures |r| <= n && |r| <= |s|
    ensures r == s[..|r|]
    ensures |s| <= n ==> r == s
    ensures |s| > n ==> |r| == n
  {
    if |s| <= n then s else s[..n]
  }

  /** `s.split(d)` for a one-character separator: the pieces between occurrences of `d`. */
  function Split(s: string, d: char): (r: seq<string>)
    ensures |r| >= 1
    ensures forall k | 0 <= k < |r| :: d !in r[k]
    decreases |s|
  {
    if |s| == 0 then [""]
    else
      var rest := Split(s[1..], d);
      if s[0] == d then [""] + rest else [[s[0]] + rest[0]] + rest[1..]
  }

  /** `parts.join(d)`. */
  function Join(parts: seq<string>, d: char): string
    decreases |parts|
  {
    if |parts| == 0 then ""
    else if |parts| == 1 then parts[0]
    else parts[0] + [d] + Join(parts[1..], d)
  }

  /** Joining the pieces of a split gives the original string back. */
  lemma {:induction false} JoinSplit(s: string, d: char)
    ensures Join(Split(s, d), d) == s
    decreases |s|
  {
    if |s| > 0 {
      var rest := Split(s[1..], d);
      JoinSplit(s[1..], d);
      if s[0] == d {
        assert Split(s, d) == [""] + rest;
        assert ([""] + rest)[1..] == rest;
        assert s == [d] + s[1..];
      } else {
        var r := Split(s, d);
        assert r == [[s[0]] + rest[0]] + rest[1..];
        if |rest| == 1 {
          assert s == [s[0]] + s[1..];
        } else {
          assert r[1..] == rest[1..];
          assert Join(rest, d) == rest[0] + [d] + Join(rest[1..], d);
          assert s == [s[0]] + s[1..];
        }
      }
    }
  }

  lemma {:induction false} SplitWithout(a: string, d: char)
    requires d !in a
    ensures Split(a, d) == [a]
    decreases |a|
  {
    if |a| > 0 {
      SplitWithout(a[1..], d);
      assert [a[0]] + a[1..] == a;
    }
  }

  lemma {:induction false} SplitAfter(a: string, d: char, b: string)
    requires d !in a
    ensures Split(a + [d] + b, d) == [a] + Split(b, d)
    decreases |a|
  {
    if |a| == 0 {
      assert a + [d] + b == [d] + b;
      assert ([d] + b)[1..] == b;
    } else {
      var s := a + [d] + b;
      assert s[1..] == a[1..] + [d] + b;
      SplitAfter(a[1..], d, b);
      assert [a[0]] + a[1..] == a;
    }
  }

  /** Splitting a join whose pieces do not contain the separator gives the pieces back. */
  lemma {:induction false} SplitJoin(parts: seq<string>, d: char)
    requires |parts| >= 1
    requires forall k | 0 <= k < |parts| :: d !in parts[k]
    ensures Split(Join(parts, d), d) == parts
    decreases |parts|
  {
    if |parts| == 1 {
      SplitWithout(parts[0], d);
    } else {
      SplitJoin(parts[1..], d);
      SplitAfter(parts[0], d, Join(parts[1..], d));
      assert [parts[0]] + parts[1..] == parts;
    }
  }

  /** Every character of every piece of a split comes from the split string. */
  lemma {:induction false} SplitChars(s: string, d: char, k: nat, c: char)
    requires k < |Split(s, d)| && c in Split(s, d)[k]
    ensures c in s
    decreases |s|
  {
    if |s| > 0 {
      var rest := Split(s[1..], d);
      if s[0] == d {
        assert k > 0 && Split(s, d)[k] == rest[k - 1];
        SplitChars(s[1..], d, k - 1, c);
      } else if k == 0 {
        if c != s[0] {
          assert c in rest[0];
          SplitChars(s[1..], d, 0, c);
        }
      } else {
        assert Split(s, d)[k] == rest[k];
        SplitChars(s[1..], d, k, c);
      }
    }
  }

  /** Every character of the split string other than the separator lies in some piece. */
  lemma {:induction false} SplitCovers(s: string, d: char, c: char)
    requires c in s && c != d
    ensures exists k | 0 <= k < |Split(s, d)| :: c in Split(s, d)[k]
    decreases |s|
  {
    var rest := Split(s[1..], d);
    if s[0] == c {
      assert c in Split(s, d)[0];
    } else {
      assert c in s[1..];
      SplitCovers(s[1..], d, c);
      var k :| 0 <= k < |rest| && c in rest[k];
      if s[0] == d {
        assert Split(s, d)[k + 1] == rest[k];
      } else if k == 0 {
        assert c in Split(s, d)[0];
      } else {
        assert Split(s, d)[k] == rest[k];
      }
    }
  }
}
