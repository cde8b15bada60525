/** Threshold alerting (alert_if_needed): after a cycle, every counter that
    reached its category's threshold contributes one alert line, in counter
    order; an alert is sent only when there is at least one such line. */
module Alert {
  import opened LogTypes

  /** The threshold of a category without a configured one: it fires only
      from a count of 999999 on. */
  const DEFAULT_THRESHOLD: int := 999999

  /** The configured threshold of c, or the default when c has none. */
  function ThresholdFor(thresholds: map<Category, int>, c: Category): int
  {
    if c in thresholds then thresholds[c] else DEFAULT_THRESHOLD
  }

  /** One line of the alert body: category, count, threshold, and up to
      MAX_SAMPLES example sources. */
  datatype AlertLine = AlertLine(category: Category, count: nat, threshold: int, examples: seq<SourceId>)

  /** The first MAX_SAMPLES samples of c, none if c has no entry. */
  function ExamplesFor(samples: map<Category, seq<SourceId>>, c: Category): (r: seq<SourceId>)
    ensures |r| <= MAX_SAMPLES
  {
    Take(if c in samples then samples[c] else [], MAX_SAMPLES)
  }

  /** The counter of c reached its threshold. */
  predicate Exceeds(counts: map<Category, nat>, thresholds: map<Category, int>, c: Category)
    requires c in counts
  {
    counts[c] >= ThresholdFor(thresholds, c)
  }

  /** The alert lines for the counters in `order` (the iteration order of
      the counts dictionary). */
  function AlertLines(order: seq<Category>, counts: map<Category, nat>,
                      samples: map<Category, seq<SourceId>>, thresholds: map<Category, int>): (lines: seq<AlertLine>)
    requires forall c :: c in order ==> c in counts
    ensures |lines| <= |order|
  {
    if order == [] then []
    else
      var c := order[|order| - 1];
      AlertLines(order[..|order| - 1], counts, samples, thresholds)
      + (if Exceeds(counts, thresholds, c)
         then [AlertLine(c, counts[c], ThresholdFor(thresholds, c), ExamplesFor(samples, c))]
         else [])
  }

  /** Line l reports a counter that reached its threshold, with that
      counter's value, its threshold and its first examples. */
  predicate Reports(l: AlertLine, counts: map<Category, nat>,
                    samples: map<Category, seq<SourceId>>, thresholds: map<Category, int>)
  {
    && l.category in counts
    && l.count == counts[l.category]
    && l.threshold == ThresholdFor(thresholds, l.category)
    && l.count >= l.threshold
    && l.examples == ExamplesFor(samples, l.category)
  }

  /** Every line reports a counter of `order`. */
  predicate AllReport(order: seq<Category>, lines: seq<AlertLine>, counts: map<Category, nat>,
                      samples: map<Category, seq<SourceId>>, thresholds: map<Category, int>)
  {
    forall j :: 0 <= j < |lines| ==> lines[j].category in order && Reports(lines[j], counts, samples, thresholds)
  }

  /** Each alert line reports a counter of `order` that reached its
      threshold, with that counter's value, its threshold and its first
      examples; and every counter that reached its threshold has a line. */
  lemma {:induction false} AlertLinesExactly(order: seq<Category>, counts: map<Category, nat>,
                                             samples: map<Category, seq<SourceId>>, thresholds: map<Category, int>)
    requires forall c :: c in order ==> c in counts
    ensures AllReport(order, AlertLines(order, counts, samples, thresholds), counts, samples, thresholds)
    ensures var lines := AlertLines(order, counts, samples, thresholds);
      (forall i :: 0 <= i < |order| && Exceeds(counts, thresholds, order[i]) ==>
            exists j :: 0 <= j < |lines| && lines[j].category == order[i])
    decreases |order|
  {
    if order != [] {
      var init := order[..|order| - 1];
      var c := order[|order| - 1];
      assert forall x :: x in init ==> x in order;
      AlertLinesExactly(init, counts, samples, thresholds);
      var prev := AlertLines(init, counts, samples, thresholds);
      var lines := AlertLines(order, counts, samples, thresholds);
      var last := if Exceeds(counts, thresholds, c)
                  then [AlertLine(c, counts[c], ThresholdFor(thresholds, c), ExamplesFor(samples, c))]
                  else [];
      assert lines == prev + last;
      forall j | 0 <= j < |lines|
        ensures lines[j].category in order && Reports(lines[j], counts, samples, thresholds)
      {
        if j < |prev| {
          assert lines[j] == prev[j];
        } else {
          assert lines[j] == last[0];
        }
      }
      forall i | 0 <= i < |order| && Exceeds(counts, thresholds, order[i])
        ensures exists j :: 0 <= j < |lines| && lines[j].category == order[i]
      {
        if i < |init| {
          assert order[i] == init[i];
          var j :| 0 <= j < |prev| && prev[j].category == init[i];
          assert lines[j] == prev[j];
        } else {
          assert lines[|prev|].category == c;
        }
      }
    }
  }

  /** The lines come in counter order: the lines of the first i counters
      are the first lines of all of them. */
  lemma {:induction false} AlertLinesInCounterOrder(order: seq<Category>, counts: map<Category, nat>,
                                                    samples: map<Category, seq<SourceId>>, thresholds: map<Category, int>)
    requires forall c :: c in order ==> c in counts
    ensures forall i :: 0 <= i <= |order| ==>
      AlertLines(order[..i], counts, samples, thresholds) <= AlertLines(order, counts, samples, thresholds)
    decreases |order|
  {
    if order != [] {
      var init := order[..|order| - 1];
      assert forall x :: x in init ==> x in order;
      AlertLinesInCounterOrder(init, counts, samples, thresholds);
      var prev := AlertLines(init, counts, samples, thresholds);
      var lines := AlertLines(order, counts, samples, thresholds);
      assert prev <= lines;
      forall i | 0 <= i <= |order|
        ensures AlertLines(order[..i], counts, samples, thresholds) <= lines
      {
        if i < |order| {
          assert order[..i] == init[..i];
        } else {
          assert order[..i] == order;
        }
      }
    }
  }

  /** With each counter listed once, no two lines are about the same counter. */
  lemma {:induction false} AlertLinesOnePerCounter(order: seq<Category>, counts: map<Category, nat>,
                                                   samples: map<Category, seq<SourceId>>, thresholds: map<Category, int>)
    requires forall c :: c in order ==> c in counts
    requires forall i, j :: 0 <= i < j < |order| ==> order[i] != order[j]
    ensures var lines := AlertLines(order, counts, samples, thresholds);
      forall j, k :: 0 <= j < k < |lines| ==> lines[j].category != lines[k].category
    decreases |order|
  {
    if order != [] {
      var init := order[..|order| - 1];
      var c := order[|order| - 1];
      assert forall x :: x in init ==> x in order;
      AlertLinesOnePerCounter(init, counts, samples, thresholds);
      AlertLinesExactly(init, counts, samples, thresholds);
      var prev := AlertLines(init, counts, samples, thresholds);
      var lines := AlertLines(order, counts, samples, thresholds);
      var last := if Exceeds(counts, thresholds, c)
                  then [AlertLine(c, counts[c], ThresholdFor(thresholds, c), ExamplesFor(samples, c))]
                  else [];
      assert lines == prev + last;
      assert c !in init by {
        forall i | 0 <= i < |init|
          ensures init[i] != c
        {
          assert init[i] == order[i];
        }
      }
      forall j, k | 0 <= j < k < |lines|
        ensures lines[j].category != lines[k].category
      {
        assert lines[j] == prev[j];
        if k < |prev| {
          assert lines[k] == prev[k];
        } else {
          assert prev[j].category in init;
          assert lines[k] == last[0];
        }
      }
    }
  }

  /** No line at all exactly when no counter reached its threshold. */
  lemma {:induction false} NoAlertWhenNothingExceeds(order: seq<Category>, counts: map<Category, nat>,
                                                     samples: map<Category, seq<SourceId>>, thresholds: map<Category, int>)
    requires forall c :: c in order ==> c in counts
    ensures AlertLines(order, counts, samples, thresholds) == [] <==>
            forall i :: 0 <= i < |order| ==> !Exceeds(counts, thresholds, order[i])
    decreases |order|
  {
    if order != [] {
      var init := order[..|order| - 1];
      assert forall x :: x in init ==> x in order;
      NoAlertWhenNothingExceeds(init, counts, samples, thresholds);
      assert forall i :: 0 <= i < |init| ==> init[i] == order[i];
    }
  }

  /** A category with no configured threshold fires only from 999999 on. */
  lemma UnconfiguredThreshold(counts: map<Category, nat>, thresholds: map<Category, int>, c: Category)
    requires c in counts && c !in thresholds
    ensures Exceeds(counts, thresholds, c) <==> counts[c] >= 999999
  {
  }

  /** The loop of alert_if_needed; `fire` is its trigger flag. */
  method AlertIfNeeded(order: seq<Category>, counts: map<Category, nat>,
                       samples: map<Category, seq<SourceId>>, thresholds: map<Category, int>)
    returns (fire: bool, lines: seq<AlertLine>)
    requires forall c :: c in order ==> c in counts
    ensures lines == AlertLines(order, counts, samples, thresholds)
    ensures fire <==> exists i :: 0 <= i < |order| && Exceeds(counts, thresholds, order[i])
    ensures fire <==> lines != []
  {
    lines := [];
    fire := false;
    for i := 0 to |order|
      invariant lines == AlertLines(order[..i], counts, samples, thresholds)
      invariant fire <==> exists k :: 0 <= k < i && Exceeds(counts, thresholds, order[k])
    {
      assert order[..i + 1][..i] == order[..i];
      var c := order[i];
      var threshold := ThresholdFor(thresholds, c);
      if counts[c] >= threshold {
        fire := true;
        lines := lines + [AlertLine(c, counts[c], threshold, ExamplesFor(samples, c))];
      }
    }
    assert order[..|order|] == order;
    NoAlertWhenNothingExceeds(order, counts, samples, thresholds);
  }
}
