/**
 * The learner-performance cache and the natural-language context built from
 * it (frontend/lib/userContext.ts).
 *
 * The two aggregation queries are an adapter whose answer is passed in as
 * rows; the clock is passed in as milliseconds. Success rates are exact
 * rationals (`real`), computed from the integer counts the queries return.
 */
module UserContext {
  import opened Common

  /** One row of the word aggregation query. */
  datatype WordStat = WordStat(id: string, japanese: string, meaning: string,
                               totalAttempts: nat, correctAttempts: nat)

  /** One row of the grammar aggregation query. */
  datatype GrammarStat = GrammarStat(id: string, name: string, pattern: string,
                                     totalAttempts: nat, correctAttempts: nat)

  datatype WordPerformance = WordPerformance(wordId: string, japanese: string, meaning: string,
                                             successRate: real, attemptCount: nat)
  {
    /** The bare label of a word: "{japanese} ({meaning})". */
    function Name(): string { japanese + " (" + meaning + ")" }
  }

  datatype GrammarPerformance = GrammarPerformance(grammarId: string, name: string, pattern: string,
                                                   successRate: real, attemptCount: nat)
  {
    /** The bare label of a grammar structure: "{name} ({pattern})". */
    function Name(): string { name + " (" + pattern + ")" }
  }

  datatype UserPerformanceData = UserPerformanceData(words: seq<WordPerformance>,
                                                     grammar: seq<GrammarPerformance>)

  datatype CacheEntry = CacheEntry(data: UserPerformanceData, timestamp: int)

  /** Five minutes, in milliseconds. */
  const CacheTtl: int := 5 * 60 * 1000

  /** The cache key of a (learner, panel) pair. */
  function CacheKey(userId: string, panelId: string): string {
    userId + ":" + panelId
  }

  /** For one learner, two panels share a key only if they are the same panel. */
  lemma CacheKeySeparatesPanels(userId: string, p1: string, p2: string)
    requires CacheKey(userId, p1) == CacheKey(userId, p2)
    ensures p1 == p2
  {
    var k1, k2 := CacheKey(userId, p1), CacheKey(userId, p2);
    assert p1 == k1[|userId| + 1..];
    assert p2 == k2[|userId| + 1..];
  }

  /** When learner ids carry no ':', the key determines both the learner and the panel. */
  lemma CacheKeyInjective(u1: string, p1: string, u2: string, p2: string)
    requires ':' !in u1 && ':' !in u2
    requires CacheKey(u1, p1) == CacheKey(u2, p2)
    ensures u1 == u2 && p1 == p2
  {
    var k := CacheKey(u1, p1);
    assert k == CacheKey(u2, p2);
    var f := FirstIndexOf(k, ':');
    assert k[|u1|] == ':' && k[..|u1|] == u1;
    assert k[|u2|] == ':' && k[..|u2|] == u2;
    assert f.Some? && f.value == |u1|;
    assert f.value == |u2|;
    assert p1 == k[|u1| + 1..];
    assert p2 == k[|u2| + 1..];
  }

  /** Without that condition two different pairs can collide on one key. */
  lemma CacheKeyCollision()
    ensures CacheKey("a:b", "c") == CacheKey("a", "b:c")
  {
  }

  /** An entry is served from the cache while it is younger than the TTL. */
  predicate IsFresh(entry: CacheEntry, now: int) {
    now - entry.timestamp < CacheTtl
  }

  /** The success rate of `correct` out of `total` attempts. */
  function Rate(correct: nat, total: nat): real
    requires total > 0
  {
    correct as real / total as real
  }

  /** What the SQL promises of a word row: at least one attempt, no more correct than total. */
  predicate WordRowOk(row: WordStat) {
    row.totalAttempts > 0 && row.correctAttempts <= row.totalAttempts
  }

  predicate GrammarRowOk(row: GrammarStat) {
    row.totalAttempts > 0 && row.correctAttempts <= row.totalAttempts
  }

  /** The word query's rows: each well formed, in ascending order of success rate. */
  predicate WordRowsOk(rows: seq<WordStat>) {
    && (forall i :: 0 <= i < |rows| ==> WordRowOk(rows[i]))
    && (forall i, j :: 0 <= i < j < |rows| ==>
          Rate(rows[i].correctAttempts, rows[i].totalAttempts) <= Rate(rows[j].correctAttempts, rows[j].totalAttempts))
  }

  predicate GrammarRowsOk(rows: seq<GrammarStat>) {
    && (forall i :: 0 <= i < |rows| ==> GrammarRowOk(rows[i]))
    && (forall i, j :: 0 <= i < j < |rows| ==>
          Rate(rows[i].correctAttempts, rows[i].totalAttempts) <= Rate(rows[j].correctAttempts, rows[j].totalAttempts))
  }

  /** A rate computed from counts lies in [0, 1]. */
  lemma RateBounds(correct: nat, total: nat)
    requires 0 < total && correct <= total
    ensures 0.0 <= Rate(correct, total) <= 1.0
    ensures Rate(correct, total) * total as real == correct as real
  {
    assert correct as real <= total as real;
  }

  /** One word row as performance: rate correct/total, count total. */
  function WordPerformanceOf(row: WordStat): (w: WordPerformance)
    requires WordRowOk(row)
    ensures && w.wordId == row.id && w.japanese == row.japanese && w.meaning == row.meaning
            && w.successRate * row.totalAttempts as real == row.correctAttempts as real
            && w.attemptCount == row.totalAttempts >= 1
            && 0.0 <= w.successRate <= 1.0
  {
    RateBounds(row.correctAttempts, row.totalAttempts);
    WordPerformance(row.id, row.japanese, row.meaning,
                    Rate(row.correctAttempts, row.totalAttempts), row.totalAttempts)
  }

  function GrammarPerformanceOf(row: GrammarStat): (g: GrammarPerformance)
    requires GrammarRowOk(row)
    ensures && g.grammarId == row.id && g.name == row.name && g.pattern == row.pattern
            && g.successRate * row.totalAttempts as real == row.correctAttempts as real
            && g.attemptCount == row.totalAttempts >= 1
            && 0.0 <= g.successRate <= 1.0
  {
    RateBounds(row.correctAttempts, row.totalAttempts);
    GrammarPerformance(row.id, row.name, row.pattern,
                       Rate(row.correctAttempts, row.totalAttempts), row.totalAttempts)
  }

  /** The row mapping, one performance per row in the adapter's order. */
  function WordsOf(rows: seq<WordStat>): (r: seq<WordPerformance>)
    requires forall i :: 0 <= i < |rows| ==> WordRowOk(rows[i])
    ensures |r| == |rows|
    ensures forall i :: 0 <= i < |r| ==> r[i] == WordPerformanceOf(rows[i])
  {
    seq(|rows|, i requires 0 <= i < |rows| => WordPerformanceOf(rows[i]))
  }

  function GrammarOf(rows: seq<GrammarStat>): (r: seq<GrammarPerformance>)
    requires forall i :: 0 <= i < |rows| ==> GrammarRowOk(rows[i])
    ensures |r| == |rows|
    ensures forall i :: 0 <= i < |r| ==> r[i] == GrammarPerformanceOf(rows[i])
  {
    seq(|rows|, i requires 0 <= i < |rows| => GrammarPerformanceOf(rows[i]))
  }

  /** The performance data the two query answers turn into. */
  function PerformanceOf(wordRows: seq<WordStat>, grammarRows: seq<GrammarStat>): (d: UserPerformanceData)
    requires WordRowsOk(wordRows) && GrammarRowsOk(grammarRows)
    ensures PerformanceOk(d)
  {
    UserPerformanceData(WordsOf(wordRows), GrammarOf(grammarRows))
  }

  /** Performance data as the adapter promises it: rates in [0, 1], ascending, counts positive. */
  predicate PerformanceOk(d: UserPerformanceData) {
    && (forall i :: 0 <= i < |d.words| ==> d.words[i].attemptCount >= 1 && 0.0 <= d.words[i].successRate <= 1.0)
    && (forall i :: 0 <= i < |d.grammar| ==> d.grammar[i].attemptCount >= 1 && 0.0 <= d.grammar[i].successRate <= 1.0)
    && (forall i, j :: 0 <= i < j < |d.words| ==> d.words[i].successRate <= d.words[j].successRate)
    && (forall i, j :: 0 <= i < j < |d.grammar| ==> d.grammar[i].successRate <= d.grammar[j].successRate)
  }

  // ---------------------------------------------------------------------
  // Mastery classification and the context sentences

  datatype Bucket = Mastered | Weak | ModerateBucket

  /** rate == 1 is mastered, rate < 0.5 is weak, anything else is moderate. */
  function Classify(rate: real): Bucket {
    if rate == 1.0 then Mastered else if rate < 0.5 then Weak else ModerateBucket
  }

  /** On counts: mastered iff all correct, weak iff fewer than half correct, and exactly half is moderate. */
  lemma ClassifyByCounts(correct: nat, total: nat)
    requires 0 < total && correct <= total
    ensures Classify(Rate(correct, total)) == Mastered <==> correct == total
    ensures Classify(Rate(correct, total)) == Weak <==> 2 * correct < total
    ensures Classify(Rate(correct, total)) == ModerateBucket <==> total <= 2 * correct < 2 * total
  {
    var r := Rate(correct, total);
    var t := total as real;
    var c := correct as real;
    RateTimesTotal(correct, total);
    RateOne(r, t, c);
    RateHalf(r, t, c);
    assert c < 0.5 * t <==> 2 * correct < total;
    assert c == t <==> correct == total;
  }

  /** The rate times the total is the correct count, for `ClassifyByCounts`. */
  lemma RateTimesTotal(correct: nat, total: nat)
    requires 0 < total
    ensures Rate(correct, total) * total as real == correct as real
  {
  }

  /** A rate is 1 exactly when the correct count equals the total, for `ClassifyByCounts`. */
  lemma RateOne(r: real, t: real, c: real)
    requires r * t == c && t > 0.0
    ensures r == 1.0 <==> c == t
  {
    if r < 1.0 {
      MulStrictMono(r, 1.0, t);
    } else if r > 1.0 {
      MulStrictMono(1.0, r, t);
    }
  }

  /** A rate is below 1/2 exactly when the correct count is below half the total, for `ClassifyByCounts`. */
  lemma RateHalf(r: real, t: real, c: real)
    requires r * t == c && t > 0.0
    ensures r < 0.5 <==> c < 0.5 * t
  {
    if r < 0.5 {
      MulStrictMono(r, 0.5, t);
    } else {
      MulMono(0.5, r, t);
    }
  }

  /** Strict monotonicity of multiplying by a positive factor, for `RateOne`, `RateHalf` and `CancelFactor`. */
  lemma MulStrictMono(a: real, b: real, k: real)
    requires a < b && k > 0.0
    ensures a * k < b * k
  {
  }

  /** Monotonicity of multiplying by a positive factor, for `RateHalf` and `CancelFactor`. */
  lemma MulMono(a: real, b: real, k: real)
    requires a <= b && k > 0.0
    ensures a * k <= b * k
  {
  }

  /** `Math.round(rate * 100)`: JavaScript rounds halves upward. */
  function RoundPercent(rate: real): int {
    (rate * 100.0 + 0.5).Floor
  }

  /** The rounded percentage equals the integer formula (200c + t) / (2t), and lies in [0, 100]. */
  lemma RoundPercentOfCounts(correct: nat, total: nat)
    requires 0 < total && correct <= total
    ensures RoundPercent(Rate(correct, total)) == (200 * correct + total) / (2 * total)
    ensures 0 <= RoundPercent(Rate(correct, total)) <= 100
  {
    var k := 2 * total;
    var num := 200 * correct + total;
    var n := num / k;
    var x := Rate(correct, total) * 100.0 + 0.5;
    ScaledRate(correct, total);
    DivBounds(num, k);
    CastMul(n, k);
    CastMul(n + 1, k);
    CancelFactor(n as real, x, (n + 1) as real, k as real, num as real);
    assert n <= 100 by {
      assert num < 101 * k;
      DivBounds(num, k);
      if n > 100 { MulIntMono(101, n, k); }
    }
  }

  /** Rounding as a scaled quantity: (rate*100 + 1/2) * 2t == 200c + t. */
  lemma ScaledRate(correct: nat, total: nat)
    requires 0 < total && correct <= total
    ensures (Rate(correct, total) * 100.0 + 0.5) * (2 * total) as real == (200 * correct + total) as real
  {
    var r := Rate(correct, total);
    var t := total as real;
    RateBounds(correct, total);
    assert (r * 100.0 + 0.5) * (2.0 * t) == 200.0 * (r * t) + t;
  }

  /** The quotient brackets the dividend, for `RoundPercentOfCounts`. */
  lemma DivBounds(num: nat, k: nat)
    requires k > 0
    ensures (num / k) * k <= num < (num / k + 1) * k
  {
    assert num == (num / k) * k + num % k;
  }

  /** Integer monotonicity of multiplying by a positive factor, for the upper bound in `RoundPercentOfCounts`. */
  lemma MulIntMono(a: int, b: int, k: int)
    requires a <= b && k > 0
    ensures a * k <= b * k
  {
  }

  /** Casting to `real` commutes with multiplication, for `RoundPercentOfCounts`. */
  lemma CastMul(a: int, b: int)
    ensures (a * b) as real == a as real * b as real
  {
  }

  /** Dividing the chain lo*k <= v < hi*k, with v == x*k, by the positive k. */
  lemma CancelFactor(lo: real, x: real, hi: real, k: real, v: real)
    requires k > 0.0 && x * k == v && lo * k <= v < hi * k
    ensures lo <= x < hi
  {
    if x < lo { MulStrictMono(x, lo, k); }
    if hi <= x { MulMono(hi, x, k); }
  }

  /** A concept reduced to what the synthesizer uses: its bare label and its rate. */
  datatype Item = Item(name: string, rate: real)

  function WordItems(ws: seq<WordPerformance>): (r: seq<Item>)
    ensures |r| == |ws|
    ensures forall i :: 0 <= i < |ws| ==> r[i] == Item(ws[i].Name(), ws[i].successRate)
  {
    seq(|ws|, i requires 0 <= i < |ws| => Item(ws[i].Name(), ws[i].successRate))
  }

  function GrammarItems(gs: seq<GrammarPerformance>): (r: seq<Item>)
    ensures |r| == |gs|
    ensures forall i :: 0 <= i < |gs| ==> r[i] == Item(gs[i].Name(), gs[i].successRate)
  {
    seq(|gs|, i requires 0 <= i < |gs| => Item(gs[i].Name(), gs[i].successRate))
  }

  /** All concepts in synthesizer order: words first, then grammar, each in input order. */
  function ItemsOf(d: UserPerformanceData): seq<Item> {
    WordItems(d.words) + GrammarItems(d.grammar)
  }

  /** The detail label of a weak or moderate concept: "{name} ({round(rate*100)}%)". */
  function Detail(it: Item): string {
    it.name + " (" + IntToString(RoundPercent(it.rate)) + "%)"
  }

  /** The text a concept contributes to its bucket: the bare name if mastered, the detail otherwise. */
  function LabelIn(it: Item, b: Bucket): string {
    if b == Mastered then it.name else Detail(it)
  }

  /** The labels of the items that fall in bucket b, in order. */
  function BucketLabels(items: seq<Item>, b: Bucket): seq<string> {
    if items == [] then []
    else
      var last := items[|items| - 1];
      BucketLabels(items[..|items| - 1], b) + (if Classify(last.rate) == b then [LabelIn(last, b)] else [])
  }

  /** The number of items of bucket b. */
  function CountIn(items: seq<Item>, b: Bucket): nat {
    if items == [] then 0
    else CountIn(items[..|items| - 1], b) + (if Classify(items[|items| - 1].rate) == b then 1 else 0)
  }

  /** Labels are listed one per classified item, and the buckets together account for every item exactly once. */
  lemma {:induction false} BucketsPartition(items: seq<Item>)
    ensures |BucketLabels(items, Mastered)| == CountIn(items, Mastered)
    ensures |BucketLabels(items, Weak)| == CountIn(items, Weak)
    ensures |BucketLabels(items, ModerateBucket)| == CountIn(items, ModerateBucket)
    ensures CountIn(items, Mastered) + CountIn(items, Weak) + CountIn(items, ModerateBucket) == |items|
  {
    if items != [] {
      BucketsPartition(items[..|items| - 1]);
    }
  }

  /** Some bucket is non-empty whenever there is at least one item. */
  lemma {:induction false} SomeBucketNonEmpty(items: seq<Item>)
    requires items != []
    ensures BucketLabels(items, Mastered) != [] || BucketLabels(items, Weak) != []
         || BucketLabels(items, ModerateBucket) != []
  {
    BucketsPartition(items);
  }

  /** Concatenating item lists concatenates their bucket labels: the order within a bucket is the input order. */
  lemma {:induction false} BucketLabelsAppend(xs: seq<Item>, ys: seq<Item>, b: Bucket)
    ensures BucketLabels(xs + ys, b) == BucketLabels(xs, b) + BucketLabels(ys, b)
    decreases |ys|
  {
    if ys == [] {
      assert xs + ys == xs;
    } else {
      var ys' := ys[..|ys| - 1];
      assert (xs + ys)[..|xs + ys| - 1] == xs + ys';
      BucketLabelsAppend(xs, ys', b);
    }
  }

  /** Extending the item list by one item extends the labels of that item's bucket only. */
  lemma BucketLabelsSnoc(xs: seq<Item>, it: Item, b: Bucket)
    ensures BucketLabels(xs + [it], b)
         == BucketLabels(xs, b) + (if Classify(it.rate) == b then [LabelIn(it, b)] else [])
  {
    assert (xs + [it])[..|xs|] == xs;
  }

  /** The three sentences present for the given bucket lists, in the fixed order. */
  function Sentences(strong: seq<string>, weak: seq<string>, moderate: seq<string>): seq<string> {
    (if strong != [] then ["The user has mastered: " + Join(strong, ", ") + "."] else [])
    + (if weak != [] then ["The user struggles with: " + Join(weak, ", ") + "."] else [])
    + (if moderate != [] then ["The user has partial knowledge of: " + Join(moderate, ", ") + "."] else [])
  }

  /** The context text for given performance data. */
  function ContextText(d: UserPerformanceData): string {
    if d.words == [] && d.grammar == [] then ""
    else
      var items := ItemsOf(d);
      Join(Sentences(BucketLabels(items, Mastered), BucketLabels(items, Weak),
                     BucketLabels(items, ModerateBucket)), " ")
  }

  /** The context is empty exactly when there is no performance data at all. */
  lemma ContextEmptyIff(d: UserPerformanceData)
    ensures ContextText(d) == "" <==> d.words == [] && d.grammar == []
  {
    if d.words != [] || d.grammar != [] {
      var items := ItemsOf(d);
      assert items != [];
      SomeBucketNonEmpty(items);
      var ss := Sentences(BucketLabels(items, Mastered), BucketLabels(items, Weak),
                          BucketLabels(items, ModerateBucket));
      assert ss != [];
      JoinStartsWithFirst(ss, " ");
      assert |ss[0]| > 0;
    }
  }

  /**
   * The concrete case of a weak word (3 of 10 correct) and a moderate grammar
   * point (3 of 5): one "struggles" sentence and one "partial knowledge"
   * sentence, in that order, with the rounded percentages 30 and 60.
   */
  lemma WeakWordModerateGrammar(d: UserPerformanceData)
    requires d == UserPerformanceData([WordPerformance("w1", "taberu", "eat", Rate(3, 10), 10)],
                                      [GrammarPerformance("g1", "te-iru", "V-te iru", Rate(3, 5), 5)])
    ensures ContextText(d)
         == ("The user struggles with: " + "taberu (eat) (30%)" + ".")
            + " " + ("The user has partial knowledge of: " + "te-iru (V-te iru) (60%)" + ".")
  {
    var w := Item(d.words[0].Name(), d.words[0].successRate);
    var g := Item(d.grammar[0].Name(), d.grammar[0].successRate);
    assert w == Item("taberu (eat)", Rate(3, 10));
    assert g == Item("te-iru (V-te iru)", Rate(3, 5));
    assert ItemsOf(d) == [w, g];
    ClassifyByCounts(3, 10);
    ClassifyByCounts(3, 5);
    WeakThenModerate(d, w, g);
    ScenarioDetails(w, g);
  }

  /** One weak item followed by one moderate one: the weak sentence, a space, the moderate sentence. */
  lemma WeakThenModerate(d: UserPerformanceData, w: Item, g: Item)
    requires ItemsOf(d) == [w, g] && d.words != []
    requires Classify(w.rate) == Weak && Classify(g.rate) == ModerateBucket
    ensures ContextText(d)
         == ("The user struggles with: " + Detail(w) + ".")
            + " " + ("The user has partial knowledge of: " + Detail(g) + ".")
  {
    ScenarioLabels(w, g);
    var a := "The user struggles with: " + Join([Detail(w)], ", ") + ".";
    var b := "The user has partial knowledge of: " + Join([Detail(g)], ", ") + ".";
    assert Join([Detail(w)], ", ") == Detail(w);
    assert Join([Detail(g)], ", ") == Detail(g);
    assert Sentences([], [Detail(w)], [Detail(g)]) == [a, b];
    assert Join([a, b], " ") == a + " " + b by {
      assert [a, b][1..] == [b];
    }
  }

  lemma ScenarioLabels(w: Item, g: Item)
    requires Classify(w.rate) == Weak && Classify(g.rate) == ModerateBucket
    ensures BucketLabels([w, g], Mastered) == []
    ensures BucketLabels([w, g], Weak) == [Detail(w)]
    ensures BucketLabels([w, g], ModerateBucket) == [Detail(g)]
  {
    assert [w, g] == [w] + [g];
    assert [w] == [] + [w];
    forall b: Bucket
      ensures BucketLabels([w], b) == (if b == Weak then [Detail(w)] else [])
    {
      BucketLabelsSnoc([], w, b);
    }
    forall b: Bucket
      ensures BucketLabels([w, g], b) == BucketLabels([w], b) + (if b == ModerateBucket then [Detail(g)] else [])
    {
      BucketLabelsSnoc([w], g, b);
    }
  }

  lemma ScenarioDetails(w: Item, g: Item)
    requires w == Item("taberu (eat)", Rate(3, 10)) && g == Item("te-iru (V-te iru)", Rate(3, 5))
    ensures Detail(w) == "taberu (eat) (30%)"
    ensures Detail(g) == "te-iru (V-te iru) (60%)"
  {
    RoundPercentOfCounts(3, 10);
    RoundPercentOfCounts(3, 5);
    assert IntToString(RoundPercent(w.rate)) == "30";
    assert IntToString(RoundPercent(g.rate)) == "60";
  }

  /** Item i lands in its own bucket's list and leaves the other two unchanged. */
  lemma LabelsStep(items: seq<Item>, i: nat)
    requires i < |items|
    ensures var it := items[i];
      BucketLabels(items[..i + 1], Mastered)
        == BucketLabels(items[..i], Mastered) + (if it.rate == 1.0 then [it.name] else [])
    ensures var it := items[i];
      BucketLabels(items[..i + 1], Weak)
        == BucketLabels(items[..i], Weak) + (if it.rate != 1.0 && it.rate < 0.5 then [Detail(it)] else [])
    ensures var it := items[i];
      BucketLabels(items[..i + 1], ModerateBucket)
        == BucketLabels(items[..i], ModerateBucket) + (if it.rate != 1.0 && !(it.rate < 0.5) then [Detail(it)] else [])
  {
    assert items[..i + 1] == items[..i] + [items[i]];
    BucketLabelsSnoc(items[..i], items[i], Mastered);
    BucketLabelsSnoc(items[..i], items[i], Weak);
    BucketLabelsSnoc(items[..i], items[i], ModerateBucket);
  }

  /**
   * One of the synthesizer's loops: each item is pushed onto the list of its
   * bucket, the bare name for a mastered one and the detail label otherwise.
   */
  method PushLabels(items: seq<Item>) returns (strong: seq<string>, weak: seq<string>, moderate: seq<string>)
    ensures strong == BucketLabels(items, Mastered)
    ensures weak == BucketLabels(items, Weak)
    ensures moderate == BucketLabels(items, ModerateBucket)
  {
    strong, weak, moderate := [], [], [];
    for i := 0 to |items|
      invariant strong == BucketLabels(items[..i], Mastered)
      invariant weak == BucketLabels(items[..i], Weak)
      invariant moderate == BucketLabels(items[..i], ModerateBucket)
    {
      var it := items[i];
      LabelsStep(items, i);
      if it.rate == 1.0 {
        strong := strong + [it.name];
      } else if it.rate < 0.5 {
        weak := weak + [Detail(it)];
      } else {
        moderate := moderate + [Detail(it)];
      }
    }
    assert items[..|items|] == items;
  }

  /** The synthesizer: classify every word, then every grammar point, then assemble the sentences. */
  method SynthesizeFromData(d: UserPerformanceData) returns (s: string)
    ensures s == ContextText(d)
  {
    if |d.words| == 0 && |d.grammar| == 0 {
      return "";
    }
    var words := WordItems(d.words);
    var grammar := GrammarItems(d.grammar);
    var strong, weak, moderate := PushLabels(words);
    var strongG, weakG, moderateG := PushLabels(grammar);
    BucketLabelsAppend(words, grammar, Mastered);
    BucketLabelsAppend(words, grammar, Weak);
    BucketLabelsAppend(words, grammar, ModerateBucket);
    s := AssembleSentences(strong + strongG, weak + weakG, moderate + moderateG);
  }

  /** The sentence-assembly step: push each non-empty bucket's sentence, then join with one space. */
  method AssembleSentences(strong: seq<string>, weak: seq<string>, moderate: seq<string>) returns (s: string)
    ensures s == Join(Sentences(strong, weak, moderate), " ")
  {
    var s1 := "The user has mastered: " + Join(strong, ", ") + ".";
    var s2 := "The user struggles with: " + Join(weak, ", ") + ".";
    var s3 := "The user has partial knowledge of: " + Join(moderate, ", ") + ".";
    var parts: seq<string> := [];
    if |strong| > 0 {
      parts := parts + [s1];
    }
    assert parts == (if strong != [] then [s1] else []);
    if |weak| > 0 {
      parts := parts + [s2];
    }
    assert parts == (if strong != [] then [s1] else []) + (if weak != [] then [s2] else []);
    if |moderate| > 0 {
      parts := parts + [s3];
    }
    s := Join(parts, " ");
  }

  /**
   * The module-level cache of performance data, keyed by CacheKey. The
   * adapter's answer for the requested pair is passed in; it is consulted
   * only when the entry is missing or stale.
   */
  class PerformanceCache {
    var entries: map<string, CacheEntry>

    constructor ()
      ensures entries == map[]
    {
      entries := map[];
    }

    /**
     * A fresh entry is returned unchanged without querying; otherwise the
     * adapter's rows are mapped, stored under the key with the completion
     * time, and returned. `queried` tells whether the adapter ran.
     */
    method GetUserPerformanceData(userId: string, panelId: string, now: int, completedAt: int,
                                  wordRows: seq<WordStat>, grammarRows: seq<GrammarStat>)
      returns (data: UserPerformanceData, queried: bool)
      requires WordRowsOk(wordRows) && GrammarRowsOk(grammarRows)
      modifies this
      ensures var key := CacheKey(userId, panelId);
        queried <==> !(key in old(entries) && IsFresh(old(entries)[key], now))
      ensures var key := CacheKey(userId, panelId);
        !queried ==> data == old(entries)[key].data && entries == old(entries)
      ensures queried ==>
        && data == PerformanceOf(wordRows, grammarRows)
        && entries == old(entries)[CacheKey(userId, panelId) := CacheEntry(data, completedAt)]
    {
      var cacheKey := userId + ":" + panelId;
      if cacheKey in entries && now - entries[cacheKey].timestamp < CacheTtl {
        return entries[cacheKey].data, false;
      }
      data := UserPerformanceData(WordsOf(wordRows), GrammarOf(grammarRows));
      entries := entries[cacheKey := CacheEntry(data, completedAt)];
      queried := true;
    }

    /** The context sentence for a (learner, panel) pair, read through the cache. */
    method SynthesizeUserContext(userId: string, panelId: string, now: int, completedAt: int,
                                 wordRows: seq<WordStat>, grammarRows: seq<GrammarStat>)
      returns (s: string)
      requires WordRowsOk(wordRows) && GrammarRowsOk(grammarRows)
      modifies this
      ensures var key := CacheKey(userId, panelId);
        key in old(entries) && IsFresh(old(entries)[key], now) ==>
          s == ContextText(old(entries)[key].data) && entries == old(entries)
      ensures var key := CacheKey(userId, panelId);
        !(key in old(entries) && IsFresh(old(entries)[key], now)) ==>
          && s == ContextText(PerformanceOf(wordRows, grammarRows))
          && entries == old(entries)[key := CacheEntry(PerformanceOf(wordRows, grammarRows), completedAt)]
    {
      var data, _ := GetUserPerformanceData(userId, panelId, now, completedAt, wordRows, grammarRows);
      s := SynthesizeFromData(data);
    }
  }

  /**
   * Three reads of one pair on an empty cache: the first queries and stores
   * its completion time 1200; a read 1 ms before that entry turns 5 minutes
   * old is served from the cache with the first value; a read at exactly 5
   * minutes queries again.
   */
  method CacheReadTwice(userId: string, panelId: string, rows1: seq<WordStat>, rows2: seq<WordStat>)
    returns (d1: UserPerformanceData, d2: UserPerformanceData, d3: UserPerformanceData,
             q1: bool, q2: bool, q3: bool)
    requires WordRowsOk(rows1) && WordRowsOk(rows2)
    ensures q1 && d1 == PerformanceOf(rows1, [])
    ensures !q2 && d2 == d1
    ensures q3 && d3 == PerformanceOf(rows2, [])
  {
    var cache := new PerformanceCache();
    d1, q1 := cache.GetUserPerformanceData(userId, panelId, 1000, 1200, rows1, []);
    d2, q2 := cache.GetUserPerformanceData(userId, panelId, 1200 + CacheTtl - 1, 0, rows2, []);
    d3, q3 := cache.GetUserPerformanceData(userId, panelId, 1200 + CacheTtl, 5000, rows2, []);
  }
}
