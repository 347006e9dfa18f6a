/** Records shared by the weekly comparison summarizers: the points and
    linear models they receive from the weekly elaboration service, the
    summaries they emit, and the ordinal vocabulary used to name weeks. */
module Summaries {

  /** One observation; the summarizers read only its value `y`. */
  datatype TimeSeriesPoint = TimeSeriesPoint(x: int, y: real)

  /** A least-squares line fitted over one week of points. */
  datatype LinearModel = LinearModel(gradient: real, intercept: real)

  /** One sentence with its validity degree. */
  datatype Summary = Summary(text: string, validity: real)

  /** A titled list of sentences, displayed as a heading and a list. */
  datatype SummaryGroup = SummaryGroup(title: string, summaries: seq<Summary>)

  /** The exceptions a summarizer can raise while building its sentences. */
  datatype Error =
    | EmptyWeek(week: nat)            // the mean of a week without points
    | MissingLinearModel(week: nat)   // the gradient of a week that has no model

  /** The summaries of a service, or the exception that ended it. */
  datatype Result<T> = Success(value: T) | Failure(error: Error)

  /** Every comparison sentence is emitted with full validity. */
  const FullValidity: real := 1.0

  /** The fixed ordinal vocabulary; weeks are numbered from 0. */
  const Ordinals: seq<string> := ["first", "second", "third", "fourth", "fifth"]

  /** The word a sentence uses for week `i`: an index past the vocabulary
      reads `undefined`, which is how the template renders a missing entry. */
  function OrdinalText(i: nat): string {
    if i < |Ordinals| then Ordinals[i] else "undefined"
  }

  /** How often `for (i = 0; i < n - 1; i++)` runs: once per adjacent pair of weeks. */
  function PairCount(numOfWeeks: nat): nat {
    if numOfWeeks == 0 then 0 else numOfWeeks - 1
  }

  /** Whether `text` reads `phrase` starting at position `i`. */
  predicate ReadsAt(text: string, i: nat, phrase: string) {
    i + |phrase| <= |text| && text[i..i + |phrase|] == phrase
  }

  /** Reading a phrase at `i` puts its first character at `i`. */
  lemma ReadsStartsWith(text: string, i: nat, phrase: string)
    requires |phrase| > 0
    ensures ReadsAt(text, i, phrase) ==> text[i] == phrase[0]
  {
    if ReadsAt(text, i, phrase) {
      assert text[i..i + |phrase|][0] == text[i];
    }
  }

  /** A text joined from three parts reads its middle part right after the first. */
  lemma ReadsMiddle(a: string, b: string, c: string)
    ensures ReadsAt(a + b + c, |a|, b)
  {
    assert (a + b + c)[|a|..|a| + |b|] == b;
  }

  /** A text joined from three parts cannot read `phrase` right after the first
      part when the middle part starts with a different character. */
  lemma MiddleDiffers(a: string, b: string, c: string, phrase: string)
    requires |b| > 0 && |phrase| > 0 && b[0] != phrase[0]
    ensures !ReadsAt(a + b + c, |a|, phrase)
  {
    var text := a + b + c;
    assert text[|a|] == b[0];
    ReadsStartsWith(text, |a|, phrase);
  }

  /** A text reads its first part at its start. */
  lemma ReadsFirst(b: string, c: string)
    ensures ReadsAt(b + c, 0, b)
  {
    assert (b + c)[..|b|] == b;
  }

  /** A text cannot read `phrase` at its start when its first part starts
      with a different character. */
  lemma FirstDiffers(b: string, c: string, phrase: string)
    requires |b| > 0 && |phrase| > 0 && b[0] != phrase[0]
    ensures !ReadsAt(b + c, 0, phrase)
  {
    var text := b + c;
    assert text[0] == b[0];
    ReadsStartsWith(text, 0, phrase);
  }

  /** Whether week `w` is named by a word of the vocabulary. */
  predicate HasOrdinal(w: nat) {
    OrdinalText(w) in Ordinals
  }

  /** Two weeks get the same name only when both lie past the vocabulary:
      the third letters of the six possible words are pairwise distinct. */
  lemma OrdinalNaming(i: nat, j: nat)
    ensures OrdinalText(i) == OrdinalText(j) <==> i == j || (i >= |Ordinals| && j >= |Ordinals|)
  {
    if i != j && (i < |Ordinals| || j < |Ordinals|) {
      assert OrdinalText(i)[2] != OrdinalText(j)[2];
    }
  }

  /** Weeks `0` to `PairCount(numOfWeeks)` all have a word of the
      vocabulary exactly when there are at most five weeks. */
  lemma NamedWeeksHaveOrdinals(numOfWeeks: nat)
    ensures (forall w: nat :: w <= PairCount(numOfWeeks) ==> HasOrdinal(w))
        <==> numOfWeeks <= |Ordinals|
  {
    if numOfWeeks > |Ordinals| {
      var w := numOfWeeks - 1;
      assert w <= PairCount(numOfWeeks);
      assert OrdinalText(w)[0] == 'u';
      assert !HasOrdinal(w);
    } else {
      forall w: nat | w <= PairCount(numOfWeeks)
        ensures HasOrdinal(w)
      {
        assert OrdinalText(w) == Ordinals[w];
      }
    }
  }
}
