/**
 * Shared value types and the string primitives the Go and Python code relies on
 * (strings.TrimSpace, strings.Split, strings.ToLower, str.strip, str.split, ...),
 * written out over `seq<char>` so that every other module states its behaviour
 * in terms of definitions that are visible here.
 */
module Text {

  datatype Option<T> = None | Some(value: T)

  datatype Result<T> = Ok(value: T) | Err(error: string)
  {
    predicate IsOk() { Ok? }
  }

  /** A decoded JSON value (Go `interface{}` / Python object after json.loads). */
  datatype Json =
    | JNull
    | JBool(b: bool)
    | JNum(n: int)
    | JStr(s: string)
    | JArr(items: seq<Json>)
    | JObj(fields: map<string, Json>)

  newtype byte = x: int | 0 <= x < 256

  /** Number of bytes of the UTF-8 encoding of one character. */
  function Utf8Width(c: char): (w: nat)
    ensures 1 <= w <= 4
  {
    if c as int < 0x80 then 1 else if c as int < 0x800 then 2 else if c as int < 0x10000 then 3 else 4
  }

  /** Go's len(s) on a string: the length of its UTF-8 encoding. */
  function Utf8Len(s: string): (n: nat)
    ensures |s| <= n <= 4 * |s|
  {
    if s == [] then 0 else Utf8Width(s[0]) + Utf8Len(s[1..])
  }

  /** Bytes of an ASCII-only literal. */
  function AsciiBytes(s: string): (b: seq<byte>)
    requires forall i :: 0 <= i < |s| ==> s[i] as int < 128
    ensures |b| == |s|
    ensures forall i :: 0 <= i < |s| ==> b[i] as int == s[i] as int
  {
    if s == [] then [] else [s[0] as int as byte] + AsciiBytes(s[1..])
  }

  /** Whitespace as Go's unicode.IsSpace sees it (the set strings.TrimSpace removes). */
  predicate IsSpace(c: char)
  {
    c == ' ' || c == '\t' || c == '\n' || c == '\r' || c == '\U{0B}' || c == '\U{0C}'
    || c == '\U{85}' || c == '\U{A0}' || c == '\U{1680}'
    || ('\U{2000}' <= c <= '\U{200A}')
    || c == '\U{2028}' || c == '\U{2029}' || c == '\U{202F}' || c == '\U{205F}' || c == '\U{3000}'
  }

  /** Whitespace as Python's str.isspace sees it (the set str.strip() removes). */
  predicate IsPySpace(c: char)
  {
    IsSpace(c) || ('\U{1C}' <= c <= '\U{1F}')
  }

  // ---------------------------------------------------------------------------
  // Trimming
  // ---------------------------------------------------------------------------

  /** Drop leading whitespace (Go unicode.IsSpace set). */
  function TrimLeft(s: string): (r: string)
    ensures |r| <= |s| && r == s[|s| - |r|..]
    ensures r == [] || !IsSpace(r[0])
    ensures forall i :: 0 <= i < |s| - |r| ==> IsSpace(s[i])
  {
    if s == [] || !IsSpace(s[0]) then s else TrimLeft(s[1..])
  }

  /** Drop trailing whitespace (Go unicode.IsSpace set). */
  function TrimRight(s: string): (r: string)
    ensures |r| <= |s| && r == s[..|r|]
    ensures r == [] || !IsSpace(r[|r| - 1])
    ensures forall i :: |r| <= i < |s| ==> IsSpace(s[i])
  {
    if s == [] || !IsSpace(s[|s| - 1]) then s else TrimRight(s[..|s| - 1])
  }

  /** strings.TrimSpace */
  function TrimSpace(s: string): (r: string)
    ensures |r| <= |s|
    ensures r == [] || (!IsSpace(r[0]) && !IsSpace(r[|r| - 1]))
  {
    TrimRight(TrimLeft(s))
  }

  /** A string made only of whitespace trims to the empty string, and conversely. */
  lemma {:induction false} TrimSpaceEmptyIff(s: string)
    ensures TrimSpace(s) == [] <==> forall i :: 0 <= i < |s| ==> IsSpace(s[i])
  {
    var l := TrimLeft(s);
    if TrimSpace(s) == [] {
      forall i | 0 <= i < |s| ensures IsSpace(s[i]) {
        if i < |s| - |l| {
        } else {
          assert s[i] == l[i - (|s| - |l|)];
        }
      }
    } else {
      var r := TrimSpace(s);
      assert !IsSpace(r[0]);
      assert r[0] == l[0] == s[|s| - |l|];
    }
  }

  lemma {:induction false} TrimLeftIdempotent(s: string)
    ensures TrimLeft(TrimLeft(s)) == TrimLeft(s)
  {
  }

  lemma {:induction false} TrimRightOfTrimmed(s: string)
    requires s == [] || !IsSpace(s[|s| - 1])
    ensures TrimRight(s) == s
  {
  }

  /** TrimSpace is idempotent: trimming a trimmed string changes nothing. */
  lemma {:induction false} TrimSpaceIdempotent(s: string)
    ensures TrimSpace(TrimSpace(s)) == TrimSpace(s)
  {
    var t := TrimSpace(s);
    assert TrimLeft(t) == t;
    TrimRightOfTrimmed(t);
  }

  /** Python str.lstrip(ch) for one character: drop every leading `ch`. */
  function LStripChar(s: string, ch: char): (r: string)
    ensures |r| <= |s| && r == s[|s| - |r|..]
    ensures r == [] || r[0] != ch
    ensures forall i :: 0 <= i < |s| - |r| ==> s[i] == ch
  {
    if s == [] || s[0] != ch then s else LStripChar(s[1..], ch)
  }

  /** Python str.rstrip(ch) for one character: drop every trailing `ch`. */
  function RStripChar(s: string, ch: char): (r: string)
    ensures |r| <= |s| && r == s[..|r|]
    ensures r == [] || r[|r| - 1] != ch
    ensures forall i :: |r| <= i < |s| ==> s[i] == ch
  {
    if s == [] || s[|s| - 1] != ch then s else RStripChar(s[..|s| - 1], ch)
  }

  /** Python str.rstrip() with no argument. */
  function PyRStrip(s: string): (r: string)
    ensures |r| <= |s| && r == s[..|r|]
    ensures r == [] || !IsPySpace(r[|r| - 1])
    ensures forall i :: |r| <= i < |s| ==> IsPySpace(s[i])
  {
    if s == [] || !IsPySpace(s[|s| - 1]) then s else PyRStrip(s[..|s| - 1])
  }

  /** Python str.lstrip() with no argument. */
  function PyLStrip(s: string): (r: string)
    ensures |r| <= |s| && r == s[|s| - |r|..]
    ensures r == [] || !IsPySpace(r[0])
  {
    if s == [] || !IsPySpace(s[0]) then s else PyLStrip(s[1..])
  }

  /** Python str.strip() with no argument. */
  function PyStrip(s: string): (r: string)
    ensures |r| <= |s|
    ensures r == [] || (!IsPySpace(r[0]) && !IsPySpace(r[|r| - 1]))
  {
    PyRStrip(PyLStrip(s))
  }

  /** A string with no surrounding whitespace is its own strip. */
  lemma PyStripOfStripped(s: string)
    requires s != [] && !IsPySpace(s[0]) && !IsPySpace(s[|s| - 1])
    ensures PyStrip(s) == s
  {
    assert PyLStrip(s) == s;
  }

  /** Go strings.Trim(s, cutset) for a one-character cutset: drop it on both sides. */
  function TrimChar(s: string, ch: char): (r: string)
    ensures |r| <= |s|
    ensures r == [] || (r[0] != ch && r[|r| - 1] != ch)
  {
    RStripChar(LStripChar(s, ch), ch)
  }

  // ---------------------------------------------------------------------------
  // Prefixes, suffixes, search
  // ---------------------------------------------------------------------------

  predicate HasPrefix(s: string, p: string) { |p| <= |s| && s[..|p|] == p }

  predicate HasSuffix(s: string, p: string) { |p| <= |s| && s[|s| - |p|..] == p }

  /** strings.TrimSuffix: remove the suffix once if present. */
  function TrimSuffix(s: string, suffix: string): (r: string)
    ensures HasSuffix(s, suffix) ==> r + suffix == s
    ensures !HasSuffix(s, suffix) ==> r == s
  {
    if HasSuffix(s, suffix) then s[..|s| - |suffix|] else s
  }

  /** strings.TrimPrefix: remove the prefix once if present. */
  function TrimPrefix(s: string, prefix: string): (r: string)
    ensures HasPrefix(s, prefix) ==> prefix + r == s
    ensures !HasPrefix(s, prefix) ==> r == s
  {
    if HasPrefix(s, prefix) then s[|prefix|..] else s
  }

  /** Index of the first occurrence of `c` in `s`. */
  function IndexOfChar(s: string, c: char): (r: Option<nat>)
    ensures r.None? <==> c !in s
    ensures r.Some? ==> r.value < |s| && s[r.value] == c && c !in s[..r.value]
  {
    if s == [] then None
    else if s[0] == c then Some(0)
    else match IndexOfChar(s[1..], c)
      case None => None
      case Some(i) => assert s[1..][..i] == s[1..i + 1]; Some(i + 1)
  }

  /** The first `c` in `p + [c] + q` is the one after `p` when `p` has none. */
  lemma {:induction false} IndexOfCharAfter(p: string, c: char, q: string)
    requires c !in p
    ensures IndexOfChar(p + [c] + q, c) == Some(|p|)
  {
    if p != [] {
      assert (p + [c] + q)[1..] == p[1..] + [c] + q;
      IndexOfCharAfter(p[1..], c, q);
    }
  }

  /** Apply `f` at every position, stopping at the first error. */
  function Traverse<T, U>(xs: seq<T>, f: (nat, T) -> Result<U>): (r: Result<seq<U>>)
    ensures r.Ok? <==> forall i :: 0 <= i < |xs| ==> f(i, xs[i]).Ok?
    ensures r.Ok? ==> |r.value| == |xs| && forall i :: 0 <= i < |xs| ==> f(i, xs[i]) == Ok(r.value[i])
  {
    if xs == [] then Ok([])
    else
      var init := xs[..|xs| - 1];
      assert forall i :: 0 <= i < |init| ==> xs[i] == init[i];
      match Traverse(init, f)
        case Err(e) => Err(e)
        case Ok(us) =>
          match f(|xs| - 1, xs[|xs| - 1])
            case Err(e) => Err(e)
            case Ok(u) => Ok(us + [u])
  }

  /** The error of Traverse is that of the first position that fails. */
  lemma {:induction false} TraverseFirstError<T, U>(xs: seq<T>, f: (nat, T) -> Result<U>, i: nat)
    requires i < |xs| && f(i, xs[i]).Err?
    requires forall j :: 0 <= j < i ==> f(j, xs[j]).Ok?
    ensures Traverse(xs, f) == Err(f(i, xs[i]).error)
    decreases |xs|
  {
    var init := xs[..|xs| - 1];
    assert forall j :: 0 <= j < |init| ==> xs[j] == init[j];
    if i < |init| {
      TraverseFirstError(init, f, i);
    } else {
      assert Traverse(init, f).Ok?;
    }
  }

  /** Traverse over a list grown by one element. */
  lemma TraverseSnoc<T, U>(xs: seq<T>, y: T, f: (nat, T) -> Result<U>)
    ensures Traverse(xs + [y], f) ==
      if Traverse(xs, f).Err? then Traverse(xs, f)
      else if f(|xs|, y).Err? then Err(f(|xs|, y).error)
      else Ok(Traverse(xs, f).value + [f(|xs|, y).value])
  {
    assert (xs + [y])[..|xs|] == xs;
  }

  /** The prefix up to `i + 1` is the prefix up to `i` and the element at `i`. */
  lemma PrefixSnoc<T>(xs: seq<T>, i: nat)
    requires i < |xs|
    ensures xs[..i + 1] == xs[..i] + [xs[i]]
  {
  }

  /** A loop building Traverse element by element: one more success. */
  lemma TraverseStepOk<T, U>(xs: seq<T>, i: nat, f: (nat, T) -> Result<U>, us: seq<U>, u: U)
    requires i < |xs| && Traverse(xs[..i], f) == Ok(us) && f(i, xs[i]) == Ok(u)
    ensures Traverse(xs[..i + 1], f) == Ok(us + [u])
  {
    PrefixSnoc(xs, i);
    TraverseSnoc(xs[..i], xs[i], f);
  }

  /** A loop building Traverse element by element: the first failure is the result. */
  lemma TraverseStepErr<T, U>(xs: seq<T>, i: nat, f: (nat, T) -> Result<U>, us: seq<U>)
    requires i < |xs| && Traverse(xs[..i], f) == Ok(us) && f(i, xs[i]).Err?
    ensures Traverse(xs, f) == Err(f(i, xs[i]).error)
  {
    PrefixSnoc(xs, i);
    TraverseSnoc(xs[..i], xs[i], f);
    TraverseErrExtends(xs, f, i + 1);
  }

  /** Once a prefix fails, Traverse over the whole list fails the same way. */
  lemma {:induction false} TraverseErrExtends<T, U>(xs: seq<T>, f: (nat, T) -> Result<U>, n: nat)
    requires n <= |xs| && Traverse(xs[..n], f).Err?
    ensures Traverse(xs, f) == Traverse(xs[..n], f)
    decreases |xs|
  {
    if n < |xs| {
      var init := xs[..|xs| - 1];
      assert init[..n] == xs[..n];
      TraverseErrExtends(init, f, n);
    } else {
      assert xs[..n] == xs;
    }
  }

  /** Position of the first element satisfying `p`. */
  function FirstWhere<T>(xs: seq<T>, p: T -> bool): (r: Option<nat>)
    ensures r.None? <==> forall i :: 0 <= i < |xs| ==> !p(xs[i])
    ensures r.Some? ==> r.value < |xs| && p(xs[r.value])
    ensures r.Some? ==> forall j :: 0 <= j < r.value ==> !p(xs[j])
    decreases |xs|
  {
    if xs == [] then None
    else
      var init := xs[..|xs| - 1];
      assert forall j :: 0 <= j < |init| ==> init[j] == xs[j];
      match FirstWhere(init, p)
        case Some(i) => Some(i)
        case None => if p(xs[|xs| - 1]) then Some(|xs| - 1) else None
  }

  /** `p` occurs in `s` starting at position `k`. */
  predicate MatchAt(s: string, p: string, k: nat)
  {
    k + |p| <= |s| && s[k..k + |p|] == p
  }

  /** Position of the first occurrence of `p` in `s` at or after `k`. */
  function IndexFrom(s: string, p: string, k: nat): (r: Option<nat>)
    ensures r.Some? ==> k <= r.value && MatchAt(s, p, r.value)
    ensures r.Some? ==> forall j :: k <= j < r.value ==> !MatchAt(s, p, j)
    ensures r.None? ==> forall j :: k <= j ==> !MatchAt(s, p, j)
    decreases |s| - k
  {
    if k + |p| > |s| then None
    else if MatchAt(s, p, k) then Some(k)
    else IndexFrom(s, p, k + 1)
  }

  /** Position of the first occurrence of `p` in `s` (Python str.find / `in`). */
  function IndexOf(s: string, p: string): (r: Option<nat>)
    ensures r.Some? ==> MatchAt(s, p, r.value)
    ensures r.Some? ==> forall j :: 0 <= j < r.value ==> !MatchAt(s, p, j)
    ensures r.None? ==> forall j :: 0 <= j ==> !MatchAt(s, p, j)
  {
    IndexFrom(s, p, 0)
  }

  predicate Contains(s: string, p: string)
  {
    IndexOf(s, p).Some?
  }

  // ---------------------------------------------------------------------------
  // Case
  // ---------------------------------------------------------------------------

  function LowerChar(c: char): (r: char)
    ensures !('A' <= r <= 'Z')
    ensures ('A' <= c <= 'Z') ==> r as int == c as int + 32
    ensures !('A' <= c <= 'Z') ==> r == c
  {
    if 'A' <= c <= 'Z' then (c as int + 32) as char else c
  }

  /** strings.ToLower / str.lower() restricted to ASCII letters. */
  function ToLower(s: string): (r: string)
    ensures |r| == |s|
    ensures forall i :: 0 <= i < |s| ==> r[i] == LowerChar(s[i])
  {
    if s == [] then [] else [LowerChar(s[0])] + ToLower(s[1..])
  }

  lemma {:induction false} ToLowerIdempotent(s: string)
    ensures ToLower(ToLower(s)) == ToLower(s)
  {
    var t := ToLower(s);
    assert forall i :: 0 <= i < |t| ==> LowerChar(t[i]) == t[i];
  }

  /** strings.ToLower(strings.TrimSpace(s)): the form in which keys and tags are compared. */
  function LowerTrim(s: string): (r: string)
    ensures |r| <= |s|
    ensures ToLower(r) == r
  {
    ToLowerIdempotent(TrimSpace(s));
    ToLower(TrimSpace(s))
  }

  /** A string without surrounding whitespace is its own TrimSpace. */
  lemma TrimSpaceOfTrimmed(s: string)
    requires s == [] || (!IsSpace(s[0]) && !IsSpace(s[|s| - 1]))
    ensures TrimSpace(s) == s
  {
    assert TrimLeft(s) == s;
    TrimRightOfTrimmed(s);
  }

  /** Normalising twice is normalising once. */
  lemma LowerTrimIdempotent(s: string)
    ensures LowerTrim(LowerTrim(s)) == LowerTrim(s)
  {
    var t := TrimSpace(s);
    var l := ToLower(t);
    if l != [] {
      assert l[0] == LowerChar(t[0]) && l[|l| - 1] == LowerChar(t[|t| - 1]);
      LowerKeepsNonSpace(t[0]);
      LowerKeepsNonSpace(t[|t| - 1]);
    }
    TrimSpaceOfTrimmed(l);
  }

  /** Lower-casing never turns a character into whitespace. */
  lemma LowerKeepsNonSpace(c: char)
    requires !IsSpace(c)
    ensures !IsSpace(LowerChar(c))
  {
    if 'A' <= c <= 'Z' {
      assert 'a' <= LowerChar(c) <= 'z';
    }
  }

  /** strings.EqualFold restricted to ASCII letters. */
  predicate EqualFold(a: string, b: string)
  {
    ToLower(a) == ToLower(b)
  }

  // ---------------------------------------------------------------------------
  // Splitting and joining on one character
  // ---------------------------------------------------------------------------

  /** strings.Split(s, string(c)): every piece between occurrences of `c`. */
  function Split(s: string, c: char): (parts: seq<string>)
    ensures |parts| >= 1
    ensures forall i :: 0 <= i < |parts| ==> c !in parts[i]
    ensures c !in s ==> parts == [s]
    decreases |s|
  {
    match IndexOfChar(s, c)
      case None => [s]
      case Some(i) => [s[..i]] + Split(s[i + 1..], c)
  }

  /** SplitOnce cuts at the first occurrence. */
  lemma SplitOnceAt(a: string, c: char, b: string)
    requires c !in a
    ensures SplitOnce(a + [c] + b, c) == (a, Some(b))
  {
    var s := a + [c] + b;
    IndexOfCharAfter(a, c, b);
    assert s[..|a|] == a && s[|a| + 1..] == b;
  }

  /** strings.Join(parts, string(c)). */
  function Join(parts: seq<string>, c: char): (s: string)
  {
    if parts == [] then []
    else if |parts| == 1 then parts[0]
    else parts[0] + [c] + Join(parts[1..], c)
  }

  /** Joining a part in front of a non-empty list puts the separator between them. */
  lemma JoinCons(x: string, xs: seq<string>, c: char)
    requires xs != []
    ensures Join([x] + xs, c) == x + [c] + Join(xs, c)
  {
    assert ([x] + xs)[1..] == xs;
  }

  /** Number of occurrences of `c` in `s`. */
  function Count(s: string, c: char): nat
  {
    if s == [] then 0 else (if s[0] == c then 1 else 0) + Count(s[1..], c)
  }

  lemma {:induction false} CountAppend(a: string, b: string, c: char)
    ensures Count(a + b, c) == Count(a, c) + Count(b, c)
  {
    if a != [] {
      assert (a + b)[1..] == a[1..] + b;
      CountAppend(a[1..], b, c);
    } else {
      assert a + b == b;
    }
  }

  lemma {:induction false} CountZero(s: string, c: char)
    ensures Count(s, c) == 0 <==> c !in s
  {
    if s != [] {
      CountZero(s[1..], c);
      assert s == [s[0]] + s[1..];
    }
  }

  /** Joining the pieces of a split restores the string. */
  lemma {:induction false} JoinSplit(s: string, c: char)
    ensures Join(Split(s, c), c) == s
    decreases |s|
  {
    match IndexOfChar(s, c)
      case None =>
      case Some(i) =>
        var head, tail := s[..i], s[i + 1..];
        assert s == head + [c] + tail;
        var rest := Split(tail, c);
        assert Split(s, c) == [head] + rest;
        JoinCons(head, rest, c);
        JoinSplit(tail, c);
  }

  /** Split yields one more piece than there are separators. */
  lemma {:induction false} SplitLength(s: string, c: char)
    ensures |Split(s, c)| == Count(s, c) + 1
    decreases |s|
  {
    match IndexOfChar(s, c)
      case None => CountZero(s, c);
      case Some(i) =>
        SplitLength(s[i + 1..], c);
        assert s == s[..i] + [c] + s[i + 1..];
        CountAppend(s[..i] + [c], s[i + 1..], c);
        CountAppend(s[..i], [c], c);
        CountZero(s[..i], c);
        assert Count([c], c) == 1 by { assert [c][1..] == []; }
  }

  /** Python s.split(sep, 1) for a one-character separator: at most two pieces. */
  function SplitOnce(s: string, c: char): (r: (string, Option<string>))
    ensures r.1.None? <==> c !in s
    ensures r.1.None? ==> r.0 == s
    ensures r.1.Some? ==> r.0 + [c] + r.1.value == s && c !in r.0
  {
    match IndexOfChar(s, c)
      case None => (s, None)
      case Some(i) =>
        assert s == s[..i] + [c] + s[i + 1..];
        (s[..i], Some(s[i + 1..]))
  }

  /** Splitting `a + [c] + b` on `c` gives the two pieces when neither contains `c`. */
  lemma SplitPair(a: string, c: char, b: string)
    requires c !in a && c !in b
    ensures Split(a + [c] + b, c) == [a, b]
  {
    var s := a + [c] + b;
    IndexOfCharAfter(a, c, b);
    assert s[..|a|] == a && s[|a| + 1..] == b;
    assert Split(b, c) == [b];
  }

  /** strings.Join with a separator string (str.join in Python). */
  function JoinWith(parts: seq<string>, sep: string): (s: string)
    ensures parts == [] ==> s == ""
    ensures |parts| == 1 ==> s == parts[0]
  {
    if parts == [] then ""
    else if |parts| == 1 then parts[0]
    else parts[0] + sep + JoinWith(parts[1..], sep)
  }

  /** When every piece holds `n` copies of `c` and the separator none, the join holds n per piece. */
  lemma {:induction false} CountJoinWith(parts: seq<string>, sep: string, c: char, n: nat)
    requires Count(sep, c) == 0
    requires forall k :: 0 <= k < |parts| ==> Count(parts[k], c) == n
    ensures Count(JoinWith(parts, sep), c) == n * |parts|
  {
    if |parts| > 1 {
      var rest := JoinWith(parts[1..], sep);
      CountJoinWith(parts[1..], sep, c, n);
      assert JoinWith(parts, sep) == parts[0] + sep + rest;
      CountAppend(parts[0], sep, c);
      CountAppend(parts[0] + sep, rest, c);
      MulSucc(n, |parts| - 1);
    }
  }

  lemma MulSucc(n: nat, m: nat)
    ensures n * (m + 1) == n * m + n
  {
  }

  /** Every element of the sequence, in order, with duplicates after the first dropped. */
  function Dedup(xs: seq<string>): (r: seq<string>)
    ensures forall x :: x in r <==> x in xs
    ensures forall i, j :: 0 <= i < j < |r| ==> r[i] != r[j]
  {
    DedupFrom(xs, {})
  }

  function DedupFrom(xs: seq<string>, seen: set<string>): (r: seq<string>)
    ensures forall x :: x in r <==> x in xs && x !in seen
    ensures forall i, j :: 0 <= i < j < |r| ==> r[i] != r[j]
  {
    if xs == [] then []
    else if xs[0] in seen then DedupFrom(xs[1..], seen)
    else [xs[0]] + DedupFrom(xs[1..], seen + {xs[0]})
  }

  // ---------------------------------------------------------------------------
  // Decimal integers
  // ---------------------------------------------------------------------------

  predicate IsDigit(c: char) { '0' <= c <= '9' }

  function DigitsValue(s: string): (n: nat)
    requires forall i :: 0 <= i < |s| ==> IsDigit(s[i])
  {
    if s == [] then 0
    else
      assert IsDigit(s[|s| - 1]);
      DigitsValue(s[..|s| - 1]) * 10 + (s[|s| - 1] as int - '0' as int)
  }

  /** Render a natural number in decimal (strconv.Itoa / fmt %d / Python str()). */
  function NatToString(n: nat): (s: string)
    ensures s != []
    ensures forall i :: 0 <= i < |s| ==> IsDigit(s[i])
    ensures DigitsValue(s) == n
  {
    if n < 10 then [('0' as int + n) as char]
    else
      var p := NatToString(n / 10);
      var r := p + [('0' as int + n % 10) as char];
      assert r[..|r| - 1] == p;
      r
  }

  /** Render a (possibly negative) integer in decimal. */
  function IntToString(n: int): (s: string)
    ensures s != []
    ensures n >= 0 ==> s == NatToString(n)
    ensures n < 0 ==> s == "-" + NatToString(-n)
  {
    if n >= 0 then NatToString(n) else "-" + NatToString(-n)
  }

  /**
   * A decimal integer with an optional sign: the strings strconv.Atoi and
   * Python int() both accept (after the surrounding spaces are trimmed).
   */
  function ParseInt(s: string): (r: Option<int>)
    ensures r.Some? && s != [] && IsDigit(s[0]) ==> r.value >= 0
  {
    if s == [] then None
    else if s[0] == '-' || s[0] == '+' then
      var d := s[1..];
      if d != [] && forall i :: 0 <= i < |d| ==> IsDigit(d[i])
      then
        var v: int := DigitsValue(d);
        Some(if s[0] == '-' then -v else v)
      else None
    else if forall i :: 0 <= i < |s| ==> IsDigit(s[i]) then Some(DigitsValue(s))
    else None
  }

  /** A rendered natural number, with or without its surrounding spaces trimmed, parses back to itself. */
  lemma ParseNatToString(n: nat)
    ensures TrimSpace(NatToString(n)) == NatToString(n)
    ensures ParseInt(NatToString(n)) == Some(n)
  {
    var s := NatToString(n);
    assert IsDigit(s[0]) && IsDigit(s[|s| - 1]);
    TrimSpaceOfTrimmed(s);
  }

  // ---------------------------------------------------------------------------
  // Counting
  // ---------------------------------------------------------------------------

  /** How many elements satisfy `p`. */
  function CountWhere<T>(xs: seq<T>, p: T -> bool): (n: nat)
    ensures n <= |xs|
  {
    if xs == [] then 0
    else CountWhere(xs[..|xs| - 1], p) + (if p(xs[|xs| - 1]) then 1 else 0)
  }

  lemma {:induction false} CountWhereAppend<T>(a: seq<T>, b: seq<T>, p: T -> bool)
    ensures CountWhere(a + b, p) == CountWhere(a, p) + CountWhere(b, p)
    decreases |b|
  {
    if b == [] {
      assert a + b == a;
    } else {
      var init := b[..|b| - 1];
      CountWhereAppend(a, init, p);
      assert (a + b)[..|a + b| - 1] == a + init;
    }
  }

  /** A predicate implied by another counts at least as many elements. */
  lemma {:induction false} CountWhereMono<T>(xs: seq<T>, p: T -> bool, q: T -> bool)
    requires forall i :: 0 <= i < |xs| ==> p(xs[i]) ==> q(xs[i])
    ensures CountWhere(xs, p) <= CountWhere(xs, q)
  {
    if xs != [] {
      var init := xs[..|xs| - 1];
      assert forall i :: 0 <= i < |init| ==> init[i] == xs[i];
      CountWhereMono(init, p, q);
    }
  }

  /** Rendering an integer and parsing it back gives the integer. */
  lemma ParseIntToString(n: int)
    ensures ParseInt(IntToString(n)) == Some(n)
  {
    if n >= 0 {
      ParseNatToString(n);
    } else {
      var d := NatToString(-n);
      assert ("-" + d)[1..] == d;
    }
  }

  /** Two predicates no element satisfies together count at most the whole sequence. */
  lemma {:induction false} CountWhereDisjoint<T>(xs: seq<T>, p: T -> bool, q: T -> bool)
    requires forall i :: 0 <= i < |xs| ==> !(p(xs[i]) && q(xs[i]))
    ensures CountWhere(xs, p) + CountWhere(xs, q) <= |xs|
  {
    if xs != [] {
      var init := xs[..|xs| - 1];
      assert forall i :: 0 <= i < |init| ==> init[i] == xs[i];
      CountWhereDisjoint(init, p, q);
    }
  }

  /** Dropping the element at `k` removes one copy of it. */
  lemma MultisetRemoveAt<T>(ys: seq<T>, k: nat)
    requires k < |ys|
    ensures multiset(ys[..k] + ys[k + 1..]) == multiset(ys) - multiset{ys[k]}
  {
    assert ys == ys[..k] + [ys[k]] + ys[k + 1..];
  }

  /** Dropping the element at `k` drops its contribution to the count. */
  lemma CountWhereRemoveAt<T>(ys: seq<T>, k: nat, p: T -> bool)
    requires k < |ys|
    ensures CountWhere(ys, p) == CountWhere(ys[..k] + ys[k + 1..], p) + (if p(ys[k]) then 1 else 0)
  {
    var x, front, back := ys[k], ys[..k], ys[k + 1..];
    assert ys == front + ([x] + back);
    assert CountWhere([x], p) == (if p(x) then 1 else 0) by {
      assert [x][..0] == [];
    }
    CountWhereAppend(front, [x] + back, p);
    CountWhereAppend([x], back, p);
    CountWhereAppend(front, back, p);
  }

  /** Counting does not depend on the order of the elements. */
  lemma {:induction false} CountWherePermutation<T>(xs: seq<T>, ys: seq<T>, p: T -> bool)
    requires multiset(xs) == multiset(ys)
    ensures CountWhere(xs, p) == CountWhere(ys, p)
    decreases |xs|
  {
    if xs == [] {
      assert |ys| == |multiset(ys)| == 0;
    } else {
      var init := xs[..|xs| - 1];
      var x := xs[|xs| - 1];
      assert x in multiset(ys);
      var k :| 0 <= k < |ys| && ys[k] == x;
      MultisetRemoveAt(ys, k);
      MultisetRemoveAt(xs, |xs| - 1);
      assert xs[..|xs| - 1] + xs[|xs|..] == init;
      CountWherePermutation(init, ys[..k] + ys[k + 1..], p);
      CountWhereRemoveAt(ys, k, p);
    }
  }

  // ---------------------------------------------------------------------------
  // Count maps
  // ---------------------------------------------------------------------------

  /** A read of a Go map[string]int: a missing key reads as 0. */
  function CountOf(counts: map<string, int>, key: string): int
  {
    if key in counts then counts[key] else 0
  }

  /** Some key of a non-empty map, the same one each time it is asked for. */
  ghost function PickKey(m: map<string, int>): (k: string)
    requires m != map[]
    ensures k in m
  {
    assert exists k :: k in m.Keys;
    var k :| k in m.Keys; k
  }

  /** The sum of the values of a count map. */
  ghost function MapSum(m: map<string, int>): int
    decreases |m.Keys|
  {
    if m == map[] then 0
    else
      var k := PickKey(m);
      assert (m - {k}).Keys < m.Keys;
      m[k] + MapSum(m - {k})
  }

  /** The sum splits off any one key. */
  lemma {:induction false} MapSumRemove(m: map<string, int>, k: string)
    requires k in m
    ensures MapSum(m) == m[k] + MapSum(m - {k})
    decreases |m.Keys|
  {
    var j := PickKey(m);
    if j != k {
      assert (m - {j}).Keys < m.Keys;
      assert (m - {k}).Keys < m.Keys;
      MapSumRemove(m - {j}, k);
      MapSumRemove(m - {k}, j);
      assert m - {j} - {k} == m - {k} - {j};
    }
  }

  /** `counts[key]++` adds one to the sum. */
  lemma MapSumIncrement(m: map<string, int>, key: string)
    ensures MapSum(m[key := CountOf(m, key) + 1]) == MapSum(m) + 1
  {
    var m' := m[key := CountOf(m, key) + 1];
    MapSumRemove(m', key);
    assert m' - {key} == m - {key};
    if key in m {
      MapSumRemove(m, key);
    } else {
      assert m - {key} == m;
    }
  }
}
