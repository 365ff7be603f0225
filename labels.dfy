/** The presenter shared by both front-ends: pick the class with the highest
    score (numpy's `argmax`) and name it through the fixed `LABELS` table. */
module Labels {

  /** `LABELS` of app.py and web_app.py. */
  const LABELS: map<int, string> :=
    map[0 := "Zero", 1 := "One", 2 := "Two", 3 := "Three", 4 := "Four",
        5 := "Five", 6 := "Six", 7 := "Seven", 8 := "Eight", 9 := "Nine"]

  /** The classifier's output: one score per digit class. */
  type Scores = s: seq<real> | |s| == 10 witness seq(10, _ => 0.0)

  /** `k` is the first index holding a maximal score: what `np.argmax` returns. */
  predicate IsFirstMax(s: seq<real>, k: int)
  {
    && 0 <= k < |s|
    && (forall j :: 0 <= j < |s| ==> s[j] <= s[k])
    && (forall j :: 0 <= j < k ==> s[j] < s[k])
  }

  /** `np.argmax` on a non-empty vector. */
  function ArgMax(s: seq<real>): (k: nat)
    requires |s| > 0
    ensures IsFirstMax(s, k)
    decreases |s|
  {
    if |s| == 1 then 0
    else
      var k := ArgMax(s[..|s| - 1]);
      if s[k] < s[|s| - 1] then |s| - 1 else k
  }

  /** The first maximal index is unique, so `ArgMax` is the only index a correct
      `argmax` may return. */
  lemma ArgMaxUnique(s: seq<real>, k: int)
    requires |s| > 0 && IsFirstMax(s, k)
    ensures ArgMax(s) == k
  {
  }

  /** The table has exactly the ten digit classes as keys. */
  lemma LabelsKeys()
    ensures LABELS.Keys == {0, 1, 2, 3, 4, 5, 6, 7, 8, 9}
    ensures forall d :: 0 <= d < 10 ==> d in LABELS
  {
    assert forall d :: 0 <= d < 10 ==> d in LABELS by {
      forall d | 0 <= d < 10 ensures d in LABELS {
        assert d == 0 || d == 1 || d == 2 || d == 3 || d == 4 || d == 5 || d == 6 || d == 7 || d == 8 || d == 9;
      }
    }
  }

  /** `LABELS[np.argmax(prediction)]`: the name of the first best-scoring digit. */
  function Label(scores: Scores): (l: string)
    ensures ArgMax(scores) in LABELS && l == LABELS[ArgMax(scores)]
    ensures exists d :: IsFirstMax(scores, d) && d in LABELS && LABELS[d] == l
  {
    LabelsKeys();
    LABELS[ArgMax(scores)]
  }

  /** `str(i)` for a single decimal digit. */
  function DigitKey(i: int): (k: string)
    requires 0 <= i < 10
    ensures |k| == 1 && '0' <= k[0] <= '9' && k[0] as int - '0' as int == i
  {
    [('0' as int + i) as char]
  }
}
