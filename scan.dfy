/** Hand-written building blocks for the regular expressions of the parsers: greedy runs of a
    character class, the engine's leftmost-position search, ordered alternatives, and the amount
    captures the patterns share. */
module Scan {
  import opened Wrappers
  import opened Text

  /** The character classes the patterns repeat with `*`, `+` or `?`. */
  datatype Class =
    | Space               // \s
    | SpaceOrColon        // [\s:]
    | DigitOrComma        // [\d,] and [0-9,]
    | Digit               // \d and [0-9]
    | NotLineTerminator   // .
    | NotNewlineOrDot     // [^\n.]

  predicate InClass(c: char, cls: Class) {
    match cls
    case Space => IsSpace(c)
    case SpaceOrColon => IsSpace(c) || c == ':'
    case DigitOrComma => IsDigit(c) || c == ','
    case Digit => IsDigit(c)
    case NotLineTerminator => !IsLineTerminator(c)
    case NotNewlineOrDot => c != '\n' && c != '.'
  }

  /** Where a greedy `cls*` that starts at `i` stops: the end of the longest run of `cls`. */
  function Span(s: string, i: nat, cls: Class): (e: nat)
    requires i <= |s|
    ensures i <= e <= |s|
    ensures forall k | i <= k < e :: InClass(s[k], cls)
    ensures e == |s| || !InClass(s[e], cls)
    decreases |s| - i
  {
    if i < |s| && InClass(s[i], cls) then Span(s, i + 1, cls) else i
  }

  /** The end of the line that contains index `i`: how far `.*` reaches from `i`. */
  function LineEnd(s: string, i: nat): (e: nat)
    requires i <= |s|
    ensures i <= e <= |s|
    ensures forall k | i <= k < e :: !IsLineTerminator(s[k])
    ensures e == |s| || IsLineTerminator(s[e])
  {
    Span(s, i, NotLineTerminator)
  }

  /** The largest index in `[lo, hi]` holding a character of `cls`: where a capture `(cls+)`
      starts once the greedy run before it has given back as few characters as it must. */
  function LastInClass(s: string, lo: nat, hi: nat, cls: Class): (r: Option<nat>)
    ensures r.Some? ==> lo <= r.value <= hi && r.value < |s| && InClass(s[r.value], cls)
    ensures r.Some? ==> forall j | r.value < j <= hi :: j >= |s| || !InClass(s[j], cls)
    ensures r.None? ==> forall j | lo <= j <= hi :: j >= |s| || !InClass(s[j], cls)
    decreases hi
  {
    if hi < lo then None
    else if hi < |s| && InClass(s[hi], cls) then Some(hi)
    else if hi == lo then None
    else LastInClass(s, lo, hi - 1, cls)
  }

  /** The first element of the ordered table `xs` for which `f` gives a value, and that value:
      a `for ... of` loop that returns on the first hit. */
  function FirstSome<X, Y>(xs: seq<X>, f: X -> Option<Y>): (r: Option<Y>)
    ensures r.Some? <==> exists k | 0 <= k < |xs| :: f(xs[k]).Some?
    ensures forall k | 0 <= k < |xs| && f(xs[k]).Some? && (forall j | 0 <= j < k :: f(xs[j]).None?) :: r == f(xs[k])
    ensures r.Some? ==> exists k | 0 <= k < |xs| :: r == f(xs[k]) && forall j | 0 <= j < k :: f(xs[j]).None?
    decreases |xs|
  {
    if |xs| == 0 then None
    else if f(xs[0]).Some? then f(xs[0])
    else
      var r := FirstSome(xs[1..], f);
      assert forall k | 1 <= k < |xs| :: xs[k] == xs[1..][k - 1];
      r
  }

  /** The first value among `xs[k..]`: a loop from `k` that returns on the first hit. */
  function FirstFrom<Y>(xs: seq<Option<Y>>, k: nat): (r: Option<Y>)
    ensures r.Some? <==> exists m | k <= m < |xs| :: xs[m].Some?
    ensures r.Some? ==> exists m | k <= m < |xs| :: r == xs[m] && forall j | k <= j < m :: xs[j].None?
    decreases |xs| - k
  {
    if k >= |xs| then None
    else if xs[k].Some? then xs[k]
    else
      var r := FirstFrom(xs, k + 1);
      FirstFromStep(xs, k, r);
      r
  }

  /** An entry without a value passes the first value after it through. */
  lemma FirstFromStep<Y>(xs: seq<Option<Y>>, k: nat, r: Option<Y>)
    requires k < |xs| && xs[k].None?
    requires r.Some? <==> exists m | k + 1 <= m < |xs| :: xs[m].Some?
    requires r.Some? ==> exists m | k + 1 <= m < |xs| :: r == xs[m] && forall j | k + 1 <= j < m :: xs[j].None?
    ensures r.Some? <==> exists m | k <= m < |xs| :: xs[m].Some?
    ensures r.Some? ==> exists m | k <= m < |xs| :: r == xs[m] && forall j | k <= j < m :: xs[j].None?
  {
    if exists m | k <= m < |xs| :: xs[m].Some? {
      var m :| k <= m < |xs| && xs[m].Some?;
      assert k + 1 <= m;
    }
    if r.Some? {
      var m :| k + 1 <= m < |xs| && r == xs[m] && forall j | k + 1 <= j < m :: xs[j].None?;
      assert forall j | k <= j < m :: xs[j].None?;
    }
  }

  /** Entries without a value are passed over: when the first `k` have none, the first value
      overall is the first value from `k` on. */
  lemma {:induction false} FirstFromSkips<Y>(xs: seq<Option<Y>>, k: nat)
    requires k <= |xs|
    requires forall j | 0 <= j < k :: xs[j].None?
    ensures FirstFrom(xs, 0) == FirstFrom(xs, k)
  {
    if k > 0 {
      FirstFromSkips(xs, k - 1);
    }
  }

  /** `s.match(re)` for a regular expression without the `g` flag: the capture found at the
      leftmost position, from `i` on, at which `at` matches. */
  function Leftmost(s: string, at: nat -> Option<string>, i: nat): (r: Option<string>)
    ensures r.Some? <==> exists k | i <= k <= |s| :: at(k).Some?
    ensures r.Some? ==> exists k | i <= k <= |s| :: r == at(k) && forall j | i <= j < k :: at(j).None?
    decreases |s| + 1 - i
  {
    if i > |s| then None
    else if at(i).Some? then at(i)
    else Leftmost(s, at, i + 1)
  }

  /** `(?:a0|a1|...)` followed by the rest of a pattern, tried at index `i`: the first alternative,
      in order, that occurs at `i` (ignoring case) and after which `rest` matches. */
  function FirstAlt(s: string, i: nat, alts: seq<string>, rest: nat -> Option<string>): (r: Option<string>)
    ensures r.Some? ==> exists k | 0 <= k < |alts| :: AtCI(s, i, alts[k]) && r == rest(i + |alts[k]|)
    ensures r.None? ==> forall k | 0 <= k < |alts| :: AtCI(s, i, alts[k]) ==> rest(i + |alts[k]|).None?
  {
    FirstSome(alts, (a: string) => if AtCI(s, i, a) then rest(i + |a|) else None)
  }

  /** The alternative that made an ordered alternation match. */
  lemma FirstAltPick(s: string, i: nat, alts: seq<string>, rest: nat -> Option<string>) returns (k: nat)
    requires FirstAlt(s, i, alts, rest).Some?
    ensures k < |alts| && AtCI(s, i, alts[k]) && rest(i + |alts[k]|).Some?
  {
    k :| 0 <= k < |alts| && AtCI(s, i, alts[k]) && FirstAlt(s, i, alts, rest) == rest(i + |alts[k]|);
  }

  /** What must follow a lazy `(.+?)` for its pattern to match. */
  datatype Stop =
    | WordOrEnd(words: seq<string>)   // (?:w0|w1|...|$): one of the words, or the end of the text
    | SpaceThen(word: string)         // \s+word

  predicate StopsAt(s: string, k: nat, stop: Stop) {
    match stop
    case WordOrEnd(words) => k == |s| || exists w | w in words :: AtCI(s, k, w)
    case SpaceThen(word) => k <= |s| && Span(s, k, Space) > k && AtCI(s, Span(s, k, Space), word)
  }

  /** Where a lazy `(.+?)` that has reached `k` ends: the first index from `k` on at which `stop`
      holds, provided every character before it is one `.` matches. */
  function LazyEnd(s: string, k: nat, stop: Stop): (r: Option<nat>)
    requires k <= |s|
    ensures r.Some? ==> k <= r.value <= |s| && StopsAt(s, r.value, stop)
    ensures r.Some? ==> forall m | k <= m < r.value :: !StopsAt(s, m, stop) && !IsLineTerminator(s[m])
    decreases |s| - k
  {
    if StopsAt(s, k, stop) then Some(k)
    else if k < |s| && !IsLineTerminator(s[k]) then LazyEnd(s, k + 1, stop)
    else None
  }

  /** `(.+?)` followed by `stop`, after a greedy run that ended at `hi` and may give characters
      back down to `lo`: the capture is tried from `hi` first, then from one character earlier,
      and so on. */
  function LazyCaptureFrom(s: string, lo: nat, hi: nat, stop: Stop): (r: Option<string>)
    ensures r.Some? ==> |r.value| > 0
    decreases hi
  {
    if hi < lo then None
    else
      var e := if hi < |s| && !IsLineTerminator(s[hi]) then LazyEnd(s, hi + 1, stop) else None;
      if e.Some? then Some(s[hi..e.value])
      else if hi == lo then None
      else LazyCaptureFrom(s, lo, hi - 1, stop)
  }

  /** What `[\d,]+(?:\.\d{2})?` can capture: a non-empty run of digits and commas, or such a run
      followed by a point and two digits. */
  predicate AmountShape(c: string) {
    || (|c| > 0 && forall k | 0 <= k < |c| :: InClass(c[k], DigitOrComma))
    || (|c| >= 4 && c[|c| - 3] == '.' && IsDigit(c[|c| - 2]) && IsDigit(c[|c| - 1])
        && forall k | 0 <= k < |c| - 3 :: InClass(c[k], DigitOrComma))
  }

  /** The capture of `[\d,]+(?:\.\d{2})?` at `j`: the longest run of digits and commas, with a
      point and two digits when they follow. */
  function GroupedAmount(s: string, j: nat): (r: Option<string>)
    ensures r.Some? <==> j < |s| && InClass(s[j], DigitOrComma)
    ensures r.Some? ==> AmountShape(r.value)
    ensures r.Some? ==> j + |r.value| <= |s| && r.value == s[j..j + |r.value|]
  {
    if j < |s| && InClass(s[j], DigitOrComma) then
      var k := Span(s, j, DigitOrComma);
      if k + 3 <= |s| && s[k] == '.' && IsDigit(s[k + 1]) && IsDigit(s[k + 2]) then Some(s[j..k + 3])
      else Some(s[j..k])
    else None
  }

  /** The capture of `[\d,]+\.\d{2}` at `j`: the longest run of digits and commas, which must be
      followed by a point and two digits. */
  function PointAmount(s: string, j: nat): (r: Option<string>)
    ensures r.Some? ==> j + |r.value| <= |s| && r.value == s[j..j + |r.value|]
    ensures r.Some? ==> |r.value| >= 4 && r.value[|r.value| - 3] == '.'
  {
    if j < |s| && InClass(s[j], DigitOrComma) then
      var k := Span(s, j, DigitOrComma);
      if k + 3 <= |s| && s[k] == '.' && IsDigit(s[k + 1]) && IsDigit(s[k + 2]) then Some(s[j..k + 3])
      else None
    else None
  }

  /** The capture of `[0-9,]+\.?[0-9]*` at `j`: digits and commas, then an optional point and
      the digits after it. */
  function LooseAmount(s: string, j: nat): (r: Option<string>)
    ensures r.Some? <==> j < |s| && InClass(s[j], DigitOrComma)
    ensures r.Some? ==> j + |r.value| <= |s| && r.value == s[j..j + |r.value|]
  {
    if j < |s| && InClass(s[j], DigitOrComma) then
      var k := Span(s, j, DigitOrComma);
      var m := if k < |s| && s[k] == '.' then k + 1 else k;
      Some(s[j..Span(s, m, Digit)])
    else None
  }

  /** One alternative of a pattern that is only ever tested: a literal, or two words with
      whitespace between them (`w1\s*w2` when `minGap` is 0, `w1\s+w2` when it is 1). The second
      word never starts with whitespace, so the greedy whitespace run is the only one to try. */
  datatype Alt = Lit(w: string) | Gap(w1: string, minGap: nat, w2: string)

  predicate AltAt(s: string, i: int, a: Alt) {
    match a
    case Lit(w) => AtCI(s, i, w)
    case Gap(w1, minGap, w2) =>
      AtCI(s, i, w1) && Span(s, i + |w1|, Space) - (i + |w1|) >= minGap
      && AtCI(s, Span(s, i + |w1|, Space), w2)
  }

  /** `/a0|a1|.../i.test(s)`. */
  predicate Test(s: string, alts: seq<Alt>) {
    exists i, k | 0 <= i <= |s| && 0 <= k < |alts| :: AltAt(s, i, alts[k])
  }
}
