/**
 * The retrieval helpers of the documentation chatbot example agent
 * (examples/python_agent_nodes/documentation_chatbot/main.py): alphabetic
 * citation keys, filtering of vector-search hits, de-duplication of retrieved
 * chunks by source, citation parsing, the context handed to the synthesizer,
 * the de-duplication of matched sections and the refinement queries.
 *
 * Python floats are modelled as reals; a Python exception is an `Err`.
 */
module Chatbot {
  import opened Text
  import Sorting

  // ---------------------------------------------------------------------------
  // Alphabetic keys
  // ---------------------------------------------------------------------------

  predicate IsUpper(c: char) { 'A' <= c <= 'Z' }

  /** The letter for the digit `d` (0 → 'A'). */
  function Letter(d: nat): (c: char)
    requires d < 26
    ensures IsUpper(c) && c as int - 'A' as int == d
  {
    ('A' as int + d) as char
  }

  /**
   * The key of index `n` in bijective base 26: 0 → "A", 25 → "Z", 26 → "AA".
   * The last letter is `n % 26`; what precedes it is the key of `n / 26 - 1`,
   * or nothing when `n < 26`.
   */
  function AlphaKeyOf(n: nat): (k: string)
    ensures k != []
    ensures forall i :: 0 <= i < |k| ==> IsUpper(k[i])
    decreases n
  {
    var head := if n / 26 == 0 then "" else AlphaKeyOf(n / 26 - 1);
    head + [Letter(n % 26)]
  }

  /** Reading a key back into its index. */
  function KeyIndex(k: string): (n: int)
    requires k != [] && forall i :: 0 <= i < |k| ==> IsUpper(k[i])
    ensures n >= 0
    ensures |k| > 1 ==> n >= 26
  {
    assert IsUpper(k[|k| - 1]);
    var d := k[|k| - 1] as int - 'A' as int;
    if |k| == 1 then d else (KeyIndex(k[..|k| - 1]) + 1) * 26 + d
  }

  /** Reading a key back gives its index. */
  lemma {:induction false} KeyIndexOfAlphaKey(n: nat)
    ensures KeyIndex(AlphaKeyOf(n)) == n
    decreases n
  {
    var k := AlphaKeyOf(n);
    if n / 26 != 0 {
      KeyIndexOfAlphaKey(n / 26 - 1);
      assert k[..|k| - 1] == AlphaKeyOf(n / 26 - 1);
    }
  }

  /** Every non-empty upper-case string is the key of exactly one index. */
  lemma {:induction false} AlphaKeyOfKeyIndex(k: string)
    requires k != [] && forall i :: 0 <= i < |k| ==> IsUpper(k[i])
    ensures AlphaKeyOf(KeyIndex(k)) == k
    decreases |k|
  {
    var d := k[|k| - 1] as int - 'A' as int;
    assert Letter(d) == k[|k| - 1];
    if |k| > 1 {
      var init := k[..|k| - 1];
      AlphaKeyOfKeyIndex(init);
      var n := KeyIndex(k);
      assert n / 26 == KeyIndex(init) + 1 && n % 26 == d;
      assert k == init + [k[|k| - 1]];
    }
  }

  /** Distinct indices have distinct keys. */
  lemma AlphaKeyInjective(a: nat, b: nat)
    requires a != b
    ensures AlphaKeyOf(a) != AlphaKeyOf(b)
  {
    KeyIndexOfAlphaKey(a);
    KeyIndexOfAlphaKey(b);
  }

  /** The keys of the first indices. */
  lemma AlphaKeyExamples()
    ensures AlphaKeyOf(0) == "A" && AlphaKeyOf(25) == "Z"
    ensures AlphaKeyOf(26) == "AA" && AlphaKeyOf(27) == "AB" && AlphaKeyOf(702) == "AAA"
  {
    assert AlphaKeyOf(0) == [Letter(0)];
    assert AlphaKeyOf(26) == AlphaKeyOf(0) + [Letter(0)];
    assert AlphaKeyOf(27) == AlphaKeyOf(0) + [Letter(1)];
    assert AlphaKeyOf(702) == AlphaKeyOf(26) + [Letter(0)];
  }

  function Reversed(xs: seq<char>): (r: seq<char>)
    ensures |r| == |xs|
  {
    if xs == [] then [] else [xs[|xs| - 1]] + Reversed(xs[..|xs| - 1])
  }

  /**
   * _alpha_key: a negative index raises ValueError; otherwise the loop peels
   * off `divmod(current, 26)` remainders (least significant first), steps to
   * `quotient - 1` and finally reverses the letters.
   */
  method AlphaKey(index: int) returns (r: Result<string>)
    ensures index < 0 ==> r == Err("Index must be non-negative")
    ensures index >= 0 ==> r == Ok(AlphaKeyOf(index))
  {
    if index < 0 {
      return Err("Index must be non-negative");
    }
    var letters: seq<char> := [];
    var current := index;
    while true
      invariant 0 <= current
      invariant AlphaKeyOf(index) == AlphaKeyOf(current) + Reversed(letters)
      decreases current
    {
      var quotient, remainder := current / 26, current % 26;
      var digit := Letter(remainder);
      assert Reversed(letters + [digit]) == [digit] + Reversed(letters) by {
        assert (letters + [digit])[..|letters|] == letters;
      }
      var head := if quotient == 0 then "" else AlphaKeyOf(quotient - 1);
      assert AlphaKeyOf(current) == head + [digit];
      assert AlphaKeyOf(index) == head + Reversed(letters + [digit]);
      letters := letters + [digit];
      if quotient == 0 {
        assert head + Reversed(letters) == Reversed(letters);
        return Ok(Reversed(letters));
      }
      current := quotient - 1;
    }
  }

  // ---------------------------------------------------------------------------
  // Vector-search hits
  // ---------------------------------------------------------------------------

  /** A vector-search hit: its metadata (empty when missing), its score if any, and its payload. */
  datatype Hit = Hit(metadata: map<string, Json>, score: Option<real>, text: string)

  /** hit.get("score", 0.0) */
  function ScoreOrZero(h: Hit): real
  {
    if h.score.Some? then h.score.value else 0.0
  }

  /** The hit's metadata namespace is exactly `namespace` and its score reaches `minScore`. */
  predicate KeepHit(h: Hit, namespace: string, minScore: real)
  {
    "namespace" in h.metadata && h.metadata["namespace"] == JStr(namespace) && ScoreOrZero(h) >= minScore
  }

  function FilteredHits(hits: seq<Hit>, namespace: string, minScore: real): seq<Hit>
  {
    if hits == [] then []
    else
      var rest := FilteredHits(hits[..|hits| - 1], namespace, minScore);
      if KeepHit(hits[|hits| - 1], namespace, minScore) then rest + [hits[|hits| - 1]] else rest
  }

  /** Filtering distributes over concatenation, so the hits keep their order. */
  lemma {:induction false} FilteredHitsAppend(a: seq<Hit>, b: seq<Hit>, namespace: string, minScore: real)
    ensures FilteredHits(a + b, namespace, minScore) == FilteredHits(a, namespace, minScore) + FilteredHits(b, namespace, minScore)
    decreases |b|
  {
    if b != [] {
      var init := b[..|b| - 1];
      assert (a + b)[..|a + b| - 1] == a + init;
      FilteredHitsAppend(a, init, namespace, minScore);
    } else {
      assert a + b == a;
    }
  }

  /** Exactly the hits that pass both tests are kept, each as often as it occurs. */
  lemma {:induction false} FilteredHitsExact(hits: seq<Hit>, namespace: string, minScore: real)
    ensures forall h :: h in FilteredHits(hits, namespace, minScore) <==> h in hits && KeepHit(h, namespace, minScore)
    ensures |FilteredHits(hits, namespace, minScore)| == CountWhere(hits, h => KeepHit(h, namespace, minScore))
    decreases |hits|
  {
    if hits != [] {
      var init := hits[..|hits| - 1];
      FilteredHitsExact(init, namespace, minScore);
      assert hits == init + [hits[|hits| - 1]];
      CountWhereAppend(init, [hits[|hits| - 1]], h => KeepHit(h, namespace, minScore));
    }
  }

  /** _filter_hits: one pass over the hits, skipping the wrong namespace and low scores. */
  method FilterHits(hits: seq<Hit>, namespace: string, minScore: real) returns (filtered: seq<Hit>)
    ensures filtered == FilteredHits(hits, namespace, minScore)
  {
    filtered := [];
    var i := 0;
    while i < |hits|
      invariant 0 <= i <= |hits|
      invariant filtered == FilteredHits(hits[..i], namespace, minScore)
    {
      assert hits[..i + 1][..i] == hits[..i];
      var hit := hits[i];
      if !("namespace" in hit.metadata && hit.metadata["namespace"] == JStr(namespace)) {
        i := i + 1;
        continue;
      }
      if ScoreOrZero(hit) < minScore {
        i := i + 1;
        continue;
      }
      filtered := filtered + [hit];
      i := i + 1;
    }
    assert hits[..i] == hits;
  }


  // ---------------------------------------------------------------------------
  // De-duplication by source
  // ---------------------------------------------------------------------------

  /** A retrieved chunk; `section` is the string under metadata["section"], if any. */
  datatype RetrievalResult = RetrievalResult(text: string, source: string, score: real, section: Option<string>)

  function SourceOf(r: RetrievalResult): string { r.source }

  /** The sort key of `sorted(..., key=score, reverse=True)`. */
  function NegScore(r: RetrievalResult): real { -r.score }

  /** The by_source dict: its keys in insertion order and the entry kept under each. */
  datatype Table = Table(order: seq<string>, best: map<string, RetrievalResult>)

  predicate WellFormed(t: Table)
  {
    (forall i, j :: 0 <= i < j < |t.order| ==> t.order[i] != t.order[j])
    && t.best.Keys == set s | s in t.order
    && (forall s :: s in t.best ==> t.best[s].source == s)
  }

  /** One loop step: an unseen source is inserted; a seen one is replaced only by a strictly higher score. */
  function Record(t: Table, r: RetrievalResult): Table
  {
    if r.source !in t.best then Table(t.order + [r.source], t.best[r.source := r])
    else if r.score > t.best[r.source].score then Table(t.order, t.best[r.source := r])
    else t
  }

  /** The by_source dict once every result has been recorded. */
  function BySource(xs: seq<RetrievalResult>): Table
  {
    if xs == [] then Table([], map[]) else Record(BySource(xs[..|xs| - 1]), xs[|xs| - 1])
  }

  /** No result with the same source scores higher than `b`. */
  predicate IsBest(xs: seq<RetrievalResult>, b: RetrievalResult)
  {
    forall k :: 0 <= k < |xs| && xs[k].source == b.source ==> xs[k].score <= b.score
  }

  /** Among the results with `b`'s source, the first one scoring at least as high as `b` is `b` itself. */
  predicate EarliestBest(xs: seq<RetrievalResult>, b: RetrievalResult)
  {
    var f := FirstWhere(xs, x => SourceOf(x) == b.source && x.score >= b.score);
    f.Some? && xs[f.value] == b
  }

  /** FirstWhere on a list grown by one element. */
  lemma FirstWhereSnoc<T>(xs: seq<T>, y: T, p: T -> bool)
    ensures FirstWhere(xs + [y], p) ==
      if FirstWhere(xs, p).Some? then FirstWhere(xs, p) else if p(y) then Some(|xs|) else None
  {
    assert (xs + [y])[..|xs|] == xs;
  }

  lemma RecordWellFormed(t: Table, r: RetrievalResult)
    requires WellFormed(t)
    ensures WellFormed(Record(t, r))
  {
    if r.source !in t.best {
      var o := t.order + [r.source];
      assert forall i :: 0 <= i < |t.order| ==> o[i] == t.order[i];
      assert (set s | s in o) == (set s | s in t.order) + {r.source};
    }
  }

  /** The dict holds an entry for every source that occurs, and nothing else. */
  lemma {:induction false} BySourceWellFormed(xs: seq<RetrievalResult>)
    ensures WellFormed(BySource(xs))
    ensures forall k :: 0 <= k < |xs| ==> xs[k].source in BySource(xs).best
    ensures forall s :: s in BySource(xs).best ==> BySource(xs).best[s] in xs
    decreases |xs|
  {
    if xs != [] {
      var init, r := xs[..|xs| - 1], xs[|xs| - 1];
      BySourceWellFormed(init);
      RecordWellFormed(BySource(init), r);
      assert forall k :: 0 <= k < |init| ==> xs[k] == init[k];
      assert xs == init + [r];
    }
  }

  /** The entry kept for a source scores at least as high as every result with that source. */
  lemma {:induction false} BySourceKeepsBest(xs: seq<RetrievalResult>)
    ensures forall s :: s in BySource(xs).best ==> IsBest(xs, BySource(xs).best[s])
    decreases |xs|
  {
    if xs != [] {
      var init, r := xs[..|xs| - 1], xs[|xs| - 1];
      BySourceKeepsBest(init);
      BySourceWellFormed(init);
      var t0, t := BySource(init), BySource(xs);
      assert forall k :: 0 <= k < |init| ==> xs[k] == init[k];
      forall s | s in t.best
        ensures IsBest(xs, t.best[s])
      {
        if s == r.source && r.source in t0.best {
          assert IsBest(init, t0.best[s]);
        } else if s == r.source {
          forall k | 0 <= k < |init| ensures init[k].source != s {
            assert init[k].source in t0.best;
          }
        } else {
          assert t.best[s] == t0.best[s];
          assert IsBest(init, t0.best[s]);
        }
      }
    }
  }

  /** An earliest best stays one when later results are appended. */
  lemma EarliestBestSnoc(init: seq<RetrievalResult>, r: RetrievalResult, b: RetrievalResult)
    requires EarliestBest(init, b)
    ensures EarliestBest(init + [r], b)
  {
    FirstWhereSnoc(init, r, x => SourceOf(x) == b.source && x.score >= b.score);
  }

  /** A new result that beats every earlier one of its source is its earliest best. */
  lemma NewBestIsEarliest(init: seq<RetrievalResult>, r: RetrievalResult)
    requires forall k :: 0 <= k < |init| && init[k].source == r.source ==> init[k].score < r.score
    ensures EarliestBest(init + [r], r)
  {
    var p := x => SourceOf(x) == r.source && x.score >= r.score;
    FirstWhereSnoc(init, r, p);
    assert forall k :: 0 <= k < |init| ==> !p(init[k]);
  }

  /** One loop step keeps the entry of source `s` the earliest best. */
  lemma RecordKeepsEarliest(init: seq<RetrievalResult>, t0: Table, r: RetrievalResult, s: string)
    requires s in Record(t0, r).best
    requires s in t0.best ==> t0.best[s].source == s && IsBest(init, t0.best[s]) && EarliestBest(init, t0.best[s])
    requires s !in t0.best ==> forall k :: 0 <= k < |init| ==> init[k].source != s
    ensures EarliestBest(init + [r], Record(t0, r).best[s])
  {
    var t := Record(t0, r);
    if s == r.source && (r.source !in t0.best || r.score > t0.best[r.source].score) {
      assert t.best[s] == r;
      forall k | 0 <= k < |init| && init[k].source == r.source ensures init[k].score < r.score {
        if s in t0.best {
          assert IsBest(init, t0.best[s]);
        }
      }
      NewBestIsEarliest(init, r);
    } else {
      assert t.best[s] == t0.best[s];
      EarliestBestSnoc(init, r, t0.best[s]);
    }
  }

  /** On ties the first result reaching the highest score is the one kept. */
  lemma {:induction false} BySourceKeepsEarliest(xs: seq<RetrievalResult>)
    ensures forall s :: s in BySource(xs).best ==> EarliestBest(xs, BySource(xs).best[s])
    decreases |xs|
  {
    if xs != [] {
      var init, r := xs[..|xs| - 1], xs[|xs| - 1];
      assert xs == init + [r];
      var t0 := BySource(init);
      assert BySource(xs) == Record(t0, r);
      BySourceKeepsEarliest(init);
      BySourceKeepsBest(init);
      BySourceWellFormed(init);
      RecordKeepsAllEarliest(init, t0, r);
    }
  }

  /** One loop step keeps every entry the earliest best. */
  lemma RecordKeepsAllEarliest(init: seq<RetrievalResult>, t0: Table, r: RetrievalResult)
    requires forall s :: s in t0.best ==> t0.best[s].source == s && IsBest(init, t0.best[s]) && EarliestBest(init, t0.best[s])
    requires forall k :: 0 <= k < |init| ==> init[k].source in t0.best
    ensures forall s :: s in Record(t0, r).best ==> EarliestBest(init + [r], Record(t0, r).best[s])
  {
    forall s | s in Record(t0, r).best
      ensures EarliestBest(init + [r], Record(t0, r).best[s])
    {
      if s !in t0.best {
        forall k | 0 <= k < |init| ensures init[k].source != s {
          assert init[k].source in t0.best;
        }
      }
      RecordKeepsEarliest(init, t0, r, s);
    }
  }

  /** The dict's values in insertion order. */
  function Values(order: seq<string>, best: map<string, RetrievalResult>): (vs: seq<RetrievalResult>)
    requires forall s :: s in order ==> s in best
    ensures |vs| == |order|
    ensures forall i :: 0 <= i < |order| ==> vs[i] == best[order[i]]
  {
    if order == [] then [] else Values(order[..|order| - 1], best) + [best[order[|order| - 1]]]
  }

  /** The sources some result of `rs` carries. */
  function Sources(rs: seq<RetrievalResult>): set<string>
  {
    set i | 0 <= i < |rs| :: rs[i].source
  }

  const MaxResults := 15

  /** The values of the by_source dict, best score first. */
  function Ranked(xs: seq<RetrievalResult>): (rs: seq<RetrievalResult>)
    ensures Sorting.SortedByReal(rs, NegScore)
  {
    var t := BySource(xs);
    BySourceWellFormed(xs);
    Sorting.SortByReal(Values(t.order, t.best), NegScore)
  }

  /** What _deduplicate_results returns: the first fifteen ranked results. */
  function TopResults(xs: seq<RetrievalResult>): (r: seq<RetrievalResult>)
    ensures |r| <= MaxResults
  {
    var ranked := Ranked(xs);
    if |ranked| <= MaxResults then ranked else ranked[..MaxResults]
  }

  /** The ranked results carry distinct sources. */
  lemma RankedUnique(xs: seq<RetrievalResult>)
    ensures Sorting.UniqueKeys(Ranked(xs), SourceOf)
  {
    var t := BySource(xs);
    BySourceWellFormed(xs);
    var values := Values(t.order, t.best);
    assert Sorting.UniqueKeys(values, SourceOf);
    Sorting.PermutationKeepsUniqueKeys(values, Ranked(xs), SourceOf);
  }

  /** Each value of the by_source dict is the earliest best of its source. */
  lemma ValuesBest(xs: seq<RetrievalResult>)
    ensures WellFormed(BySource(xs))
    ensures forall k :: 0 <= k < |BySource(xs).order| ==>
      IsBest(xs, Values(BySource(xs).order, BySource(xs).best)[k]) && EarliestBest(xs, Values(BySource(xs).order, BySource(xs).best)[k])
  {
    var t := BySource(xs);
    BySourceWellFormed(xs);
    BySourceKeepsBest(xs);
    BySourceKeepsEarliest(xs);
    forall k | 0 <= k < |t.order|
      ensures IsBest(xs, Values(t.order, t.best)[k]) && EarliestBest(xs, Values(t.order, t.best)[k])
    {
      assert t.order[k] in t.best;
    }
  }

  /** Each ranked result is the earliest best of its source. */
  lemma RankedBest(xs: seq<RetrievalResult>)
    ensures forall i :: 0 <= i < |Ranked(xs)| ==> IsBest(xs, Ranked(xs)[i]) && EarliestBest(xs, Ranked(xs)[i])
  {
    var t := BySource(xs);
    ValuesBest(xs);
    var values := Values(t.order, t.best);
    Sorting.PermutationKeepsAll(values, Ranked(xs), b => IsBest(xs, b) && EarliestBest(xs, b));
  }

  /** Every source that occurs is ranked. */
  lemma RankedCovers(xs: seq<RetrievalResult>)
    ensures forall k :: 0 <= k < |xs| ==> xs[k].source in Sources(Ranked(xs))
  {
    var t := BySource(xs);
    BySourceWellFormed(xs);
    var values := Values(t.order, t.best);
    var ranked := Ranked(xs);
    assert multiset(values) == multiset(ranked);
    forall k | 0 <= k < |xs|
      ensures xs[k].source in Sources(ranked)
    {
      var j :| 0 <= j < |t.order| && t.order[j] == xs[k].source;
      assert values[j] in multiset(ranked);
      var i :| 0 <= i < |ranked| && ranked[i] == values[j];
      assert ranked[i].source == xs[k].source;
    }
  }

  /** The kept results are sorted by descending score, carry distinct sources, and each is its source's earliest best. */
  lemma TopResultsSound(xs: seq<RetrievalResult>)
    ensures Sorting.SortedByReal(TopResults(xs), NegScore)
    ensures Sorting.UniqueKeys(TopResults(xs), SourceOf)
    ensures forall i :: 0 <= i < |TopResults(xs)| ==> IsBest(xs, TopResults(xs)[i]) && EarliestBest(xs, TopResults(xs)[i])
  {
    RankedUnique(xs);
    RankedBest(xs);
  }

  /**
   * A source is left out only when fifteen results were kept, each scoring
   * at least as high as any result with the omitted source.
   */
  lemma TopResultsComplete(xs: seq<RetrievalResult>)
    ensures forall k :: 0 <= k < |xs| ==>
      xs[k].source in Sources(TopResults(xs)) || (|TopResults(xs)| == MaxResults && forall i :: 0 <= i < MaxResults ==> TopResults(xs)[i].score >= xs[k].score)
  {
    RankedCovers(xs);
    RankedAreBest(xs);
    CutComplete(xs, Ranked(xs), TopResults(xs));
  }

  /** Every ranked result scores at least as high as any result with its source. */
  lemma RankedAreBest(xs: seq<RetrievalResult>)
    ensures forall i :: 0 <= i < |Ranked(xs)| ==> IsBest(xs, Ranked(xs)[i])
  {
    var t := BySource(xs);
    ValuesBest(xs);
    var values := Values(t.order, t.best);
    Sorting.PermutationKeepsAll(values, Ranked(xs), b => IsBest(xs, b));
  }

  /** Cutting ranked best results that cover every source leaves out only sources that score no higher. */
  lemma CutComplete(xs: seq<RetrievalResult>, ranked: seq<RetrievalResult>, r: seq<RetrievalResult>)
    requires Sorting.SortedByReal(ranked, NegScore)
    requires forall i :: 0 <= i < |ranked| ==> IsBest(xs, ranked[i])
    requires forall k :: 0 <= k < |xs| ==> xs[k].source in Sources(ranked)
    requires r == if |ranked| <= MaxResults then ranked else ranked[..MaxResults]
    ensures forall k :: 0 <= k < |xs| ==>
      xs[k].source in Sources(r) || (|r| == MaxResults && forall i :: 0 <= i < MaxResults ==> r[i].score >= xs[k].score)
  {
    forall k | 0 <= k < |xs|
      ensures xs[k].source in Sources(r) || (|r| == MaxResults && forall i :: 0 <= i < MaxResults ==> r[i].score >= xs[k].score)
    {
      var j :| 0 <= j < |ranked| && ranked[j].source == xs[k].source;
      var b := ranked[j];
      if j < |r| {
        assert r[j] == b;
      } else {
        assert IsBest(xs, b);
        forall i | 0 <= i < MaxResults ensures r[i].score >= xs[k].score {
          assert NegScore(ranked[i]) <= NegScore(ranked[j]);
        }
      }
    }
  }

  /** _deduplicate_results: the by_source loop, then the sort and the cut. */
  method DeduplicateResults(results: seq<RetrievalResult>) returns (r: seq<RetrievalResult>)
    ensures r == TopResults(results)
  {
    var order: seq<string> := [];
    var best: map<string, RetrievalResult> := map[];
    var n := 0;
    while n < |results|
      invariant 0 <= n <= |results|
      invariant Table(order, best) == BySource(results[..n])
    {
      assert results[..n + 1][..n] == results[..n];
      var result := results[n];
      if result.source !in best || result.score > best[result.source].score {
        if result.source !in best {
          order := order + [result.source];
        }
        best := best[result.source := result];
      }
      n := n + 1;
    }
    assert results[..n] == results;
    BySourceWellFormed(results);
    var sorted := Sorting.SortByReal(Values(order, best), NegScore);
    r := if |sorted| <= MaxResults then sorted else sorted[..MaxResults];
  }

  // ---------------------------------------------------------------------------
  // Citations
  // ---------------------------------------------------------------------------

  datatype Citation = Citation(key: string, relativePath: string, startLine: int, endLine: int, section: Option<string>, preview: string, score: real)

  /** Python int() on a string: surrounding whitespace, an optional sign, decimal digits. */
  function PyInt(s: string): (r: Result<int>)
    ensures r.Ok? <==> ParseInt(PyStrip(s)).Some?
  {
    match ParseInt(PyStrip(s))
      case Some(n) => Ok(n)
      case None => Err("invalid literal for int() with base 10: " + s)
  }

  /**
   * A source written "path:start-end": the path is everything before the
   * first ':'; a missing range reads as "0-0" and a missing end as the start.
   * Anything after a second ':' or '-' is ignored; a bound that is not an
   * integer raises.
   */
  function ParseSource(source: string): (r: Result<(string, int, int)>)
    ensures r.Ok? ==> ':' !in r.value.0 && r.value.0 == Split(source, ':')[0]
  {
    var parts := Split(source, ':');
    var lineRange := if |parts| > 1 then parts[1] else "0-0";
    var lineParts := Split(lineRange, '-');
    match PyInt(lineParts[0])
      case Err(e) => Err(e)
      case Ok(start) =>
        if |lineParts| > 1 then
          match PyInt(lineParts[1])
            case Err(e) => Err(e)
            case Ok(last) => Ok((parts[0], start, last))
        else Ok((parts[0], start, start))
  }

  lemma PyIntOfNat(n: nat)
    ensures PyInt(NatToString(n)) == Ok(n)
  {
    var s := NatToString(n);
    assert IsDigit(s[0]) && IsDigit(s[|s| - 1]);
    PyStripOfStripped(s);
    ParseNatToString(n);
  }

  /** A source built from a path and two line numbers reads back as those three. */
  lemma ParseSourceRoundTrip(path: string, start: nat, last: nat)
    requires ':' !in path
    ensures ParseSource(path + ":" + NatToString(start) + "-" + NatToString(last)) == Ok((path, start, last))
  {
    var a, b := NatToString(start), NatToString(last);
    var range := a + "-" + b;
    assert '-' !in a && '-' !in b && ':' !in range by {
      assert forall i :: 0 <= i < |a| ==> IsDigit(a[i]);
      assert forall i :: 0 <= i < |b| ==> IsDigit(b[i]);
    }
    assert path + ":" + a + "-" + b == path + [':'] + range;
    assert range == a + ['-'] + b;
    SplitPair(path, ':', range);
    SplitPair(a, '-', b);
    PyIntOfNat(start);
    PyIntOfNat(last);
  }

  /** A source without a range cites lines 0 to 0. */
  lemma ParseSourceWithoutRange(path: string)
    requires ':' !in path
    ensures ParseSource(path) == Ok((path, 0, 0))
  {
    assert "0-0" == "0" + ['-'] + "0";
    SplitPair("0", '-', "0");
    PyIntOfNat(0);
  }

  /** A source with a single line number cites that line alone. */
  lemma ParseSourceWithoutEnd(path: string, start: nat)
    requires ':' !in path
    ensures ParseSource(path + ":" + NatToString(start)) == Ok((path, start, start))
  {
    var a := NatToString(start);
    assert '-' !in a && ':' !in a by {
      assert forall i :: 0 <= i < |a| ==> IsDigit(a[i]);
    }
    var source := path + ":" + a;
    assert source == path + [':'] + a;
    SplitPair(path, ':', a);
    assert Split(source, ':') == [path, a];
    assert Split(a, '-') == [a];
    PyIntOfNat(start);
  }

  /** A range whose start is not an integer is an error. */
  lemma ParseSourceRejectsStart(path: string, range: string)
    requires ':' !in path && ':' !in range && '-' !in range
    requires ParseInt(PyStrip(range)).None?
    ensures ParseSource(path + ":" + range).Err?
  {
    assert path + ":" + range == path + [':'] + range;
    SplitPair(path, ':', range);
  }

  /** result.text[:200] */
  function Preview(text: string): (p: string)
    ensures |p| <= |text| && |p| <= 200 && p == text[..|p|]
    ensures |text| <= 200 ==> p == text
  {
    if |text| <= 200 then text else text[..200]
  }

  /** The citation of the result at position `i`. */
  function CitationAt(i: nat, r: RetrievalResult): Result<Citation>
  {
    match ParseSource(r.source)
      case Err(e) => Err(e)
      case Ok((path, start, last)) => Ok(Citation(AlphaKeyOf(i), path, start, last, None, Preview(r.text), r.score))
  }

  /** The citations of a list of results, or the error of the first one that does not parse. */
  function Citations(xs: seq<RetrievalResult>): (r: Result<seq<Citation>>)
    ensures r.Ok? <==> forall i :: 0 <= i < |xs| ==> CitationAt(i, xs[i]).Ok?
    ensures r.Ok? ==> |r.value| == |xs| && forall i :: 0 <= i < |xs| ==> CitationAt(i, xs[i]) == Ok(r.value[i])
  {
    Traverse(xs, CitationAt)
  }

  /** The error reported is that of the first result whose source does not parse. */
  lemma CitationsFirstError(xs: seq<RetrievalResult>, i: nat)
    requires i < |xs| && CitationAt(i, xs[i]).Err?
    requires forall j :: 0 <= j < i ==> CitationAt(j, xs[j]).Ok?
    ensures Citations(xs) == Err(CitationAt(i, xs[i]).error)
  {
    TraverseFirstError(xs, CitationAt, i);
  }

  /** _build_citations */
  method BuildCitations(results: seq<RetrievalResult>) returns (r: Result<seq<Citation>>)
    ensures r == Citations(results)
  {
    var citations: seq<Citation> := [];
    var idx := 0;
    while idx < |results|
      invariant 0 <= idx <= |results|
      invariant Traverse(results[..idx], CitationAt) == Ok(citations)
    {
      var cited := CiteResult(idx, results[idx]);
      if cited.Err? {
        TraverseStepErr(results, idx, CitationAt, citations);
        return Err(cited.error);
      }
      TraverseStepOk(results, idx, CitationAt, citations, cited.value);
      citations := citations + [cited.value];
      idx := idx + 1;
    }
    assert results[..idx] == results;
    return Ok(citations);
  }

  /** The body of the loop: parse the source of one result and build its citation. */
  method CiteResult(idx: nat, result: RetrievalResult) returns (cited: Result<Citation>)
    ensures cited == CitationAt(idx, result)
  {
    var parsed := ParseSource(result.source);
    if parsed.Err? {
      return Err(parsed.error);
    }
    var (relativePath, startLine, endLine) := parsed.value;
    var key := AlphaKey(idx);
    cited := Ok(Citation(key.value, relativePath, startLine, endLine, None, Preview(result.text), result.score));
  }

  /** Citation keys are pairwise distinct: A, B, ..., Z, AA, ... */
  lemma CitationKeysDistinct(xs: seq<RetrievalResult>)
    requires Citations(xs).Ok?
    ensures forall i, j :: 0 <= i < j < |xs| ==> Citations(xs).value[i].key != Citations(xs).value[j].key
  {
    var cs := Citations(xs).value;
    CitationKeys(xs);
    forall i, j | 0 <= i < j < |xs| ensures cs[i].key != cs[j].key {
      AlphaKeyInjective(i, j);
    }
  }

  // ---------------------------------------------------------------------------
  // Context for the synthesizer
  // ---------------------------------------------------------------------------

  /** The block "[key] source\ntext" of the result at position `i`. */
  function Block(i: nat, r: RetrievalResult): string
  {
    "[" + AlphaKeyOf(i) + "] " + r.source + "\n" + r.text
  }

  function Blocks(xs: seq<RetrievalResult>): (bs: seq<string>)
    ensures |bs| == |xs|
    ensures forall i :: 0 <= i < |xs| ==> bs[i] == Block(i, xs[i])
  {
    if xs == [] then [] else Blocks(xs[..|xs| - 1]) + [Block(|xs| - 1, xs[|xs| - 1])]
  }

  const NoContext := "(no context available)"

  /** The blocks joined by blank lines, or a placeholder when nothing was retrieved. */
  function ContextText(xs: seq<RetrievalResult>): string
  {
    if xs == [] then NoContext else JoinWith(Blocks(xs), "\n\n")
  }

  /** _format_context_for_synthesis */
  method FormatContextForSynthesis(results: seq<RetrievalResult>) returns (s: string)
    ensures s == ContextText(results)
  {
    if |results| == 0 {
      return NoContext;
    }
    var blocks: seq<string> := [];
    var idx := 0;
    while idx < |results|
      invariant 0 <= idx <= |results|
      invariant blocks == Blocks(results[..idx])
    {
      assert results[..idx + 1][..idx] == results[..idx];
      var key := AlphaKey(idx);
      blocks := blocks + ["[" + key.value + "] " + results[idx].source + "\n" + results[idx].text];
      idx := idx + 1;
    }
    assert results[..idx] == results;
    return JoinWith(blocks, "\n\n");
  }

  /** Citation `i` carries the key of index `i`. */
  lemma CitationKeys(xs: seq<RetrievalResult>)
    requires Citations(xs).Ok?
    ensures forall i :: 0 <= i < |xs| ==> Citations(xs).value[i].key == AlphaKeyOf(i)
  {
    var cs := Citations(xs).value;
    forall i | 0 <= i < |xs| ensures cs[i].key == AlphaKeyOf(i) {
      assert CitationAt(i, xs[i]) == Ok(cs[i]);
    }
  }

  lemma BlockOpensWithKey(i: nat, r: RetrievalResult)
    ensures HasPrefix(Block(i, r), "[" + AlphaKeyOf(i) + "] " + r.source)
  {
    var p := "[" + AlphaKeyOf(i) + "] " + r.source;
    assert Block(i, r) == p + ("\n" + r.text);
  }

  /** Block `i` of the context opens with "[key] source" for the key of citation `i`. */
  lemma CitationKeysLabelBlocks(xs: seq<RetrievalResult>)
    requires Citations(xs).Ok?
    ensures forall i :: 0 <= i < |xs| ==>
      HasPrefix(Blocks(xs)[i], "[" + Citations(xs).value[i].key + "] " + xs[i].source)
  {
    CitationKeys(xs);
    forall i | 0 <= i < |xs|
      ensures HasPrefix(Blocks(xs)[i], "[" + Citations(xs).value[i].key + "] " + xs[i].source)
    {
      BlockOpensWithKey(i, xs[i]);
    }
  }

  /** The context opens with the first block, followed by a blank line when more follow. */
  lemma ContextStartsWithFirstBlock(xs: seq<RetrievalResult>)
    requires xs != []
    ensures |xs| == 1 ==> ContextText(xs) == Block(0, xs[0])
    ensures |xs| > 1 ==> HasPrefix(ContextText(xs), Block(0, xs[0]) + "\n\n")
  {
    var bs := Blocks(xs);
    if |bs| > 1 {
      assert JoinWith(bs, "\n\n") == (bs[0] + "\n\n") + JoinWith(bs[1..], "\n\n");
    }
  }

  // ---------------------------------------------------------------------------
  // Matched sections of a document
  // ---------------------------------------------------------------------------

  /** The truthy metadata["section"] values of the chunks, in order. */
  function MatchedSections(chunks: seq<RetrievalResult>): (ss: seq<string>)
    ensures forall s :: s in ss ==> s != ""
  {
    if chunks == [] then []
    else
      var last := chunks[|chunks| - 1];
      MatchedSections(chunks[..|chunks| - 1]) + (if last.section.Some? && last.section.value != "" then [last.section.value] else [])
  }

  /** Removing duplicates keeps the first occurrences in order: a later copy adds nothing, a new value goes last. */
  lemma {:induction false} DedupFromSnoc(xs: seq<string>, seen: set<string>, x: string)
    ensures DedupFrom(xs + [x], seen) == DedupFrom(xs, seen) + (if x in xs || x in seen then [] else [x])
    decreases |xs|
  {
    if xs == [] {
      assert [] + [x] == [x];
    } else {
      assert (xs + [x])[0] == xs[0] && (xs + [x])[1..] == xs[1..] + [x];
      if xs[0] in seen {
        DedupFromSnoc(xs[1..], seen, x);
      } else {
        DedupFromSnoc(xs[1..], seen + {xs[0]}, x);
      }
    }
  }

  lemma DedupSnoc(xs: seq<string>, x: string)
    ensures Dedup(xs + [x]) == Dedup(xs) + (if x in xs then [] else [x])
  {
    DedupFromSnoc(xs, {}, x);
  }

  /** The seen-set loop that drops repeated sections. */
  method UniqueSections(chunks: seq<RetrievalResult>) returns (unique: seq<string>)
    ensures unique == Dedup(MatchedSections(chunks))
  {
    var matched := MatchedSections(chunks);
    var seen: set<string> := {};
    unique := [];
    var i := 0;
    while i < |matched|
      invariant 0 <= i <= |matched|
      invariant seen == set j | 0 <= j < i :: matched[j]
      invariant unique + DedupFrom(matched[i..], seen) == Dedup(matched)
    {
      var section := matched[i];
      assert matched[i..][0] == section && matched[i..][1..] == matched[i + 1..];
      if section !in seen {
        seen := seen + {section};
        unique := unique + [section];
      }
      i := i + 1;
    }
    assert matched[i..] == [];
  }

  // ---------------------------------------------------------------------------
  // Refinement
  // ---------------------------------------------------------------------------

  const MaxRefinementTopics := 3

  /**
   * The second retrieval round: only when the answer asks for more and names
   * missing topics; each of the first three topics yields the question with
   * the topic appended, then the topic alone.
   */
  method RefinementQueries(question: string, needsMore: bool, missingTopics: seq<string>) returns (queries: Option<seq<string>>)
    ensures queries.None? <==> !needsMore || missingTopics == []
    ensures queries.Some? ==> |queries.value| == 2 * (if |missingTopics| < MaxRefinementTopics then |missingTopics| else MaxRefinementTopics)
    ensures queries.Some? ==> forall i :: 0 <= i < |queries.value| / 2 ==>
      queries.value[2 * i] == question + " " + missingTopics[i] && queries.value[2 * i + 1] == missingTopics[i]
  {
    if !needsMore || missingTopics == [] {
      return None;
    }
    var topics := if |missingTopics| < MaxRefinementTopics then missingTopics else missingTopics[..MaxRefinementTopics];
    var qs: seq<string> := [];
    var i := 0;
    while i < |topics|
      invariant 0 <= i <= |topics|
      invariant |qs| == 2 * i
      invariant forall j :: 0 <= j < i ==> qs[2 * j] == question + " " + topics[j] && qs[2 * j + 1] == topics[j]
    {
      qs := qs + [question + " " + topics[i], topics[i]];
      i := i + 1;
    }
    return Some(qs);
  }
}
