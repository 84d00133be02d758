/** The question bank the quiz reads: weeks, in the order their keys appear in
    the bank (the order `Object.keys` yields for keys such as "week-1"), each
    holding an ordered list of multiple-choice questions. */
module QuestionBank {

  datatype Option<T> = None | Some(value: T)

  datatype Question = Question(text: string, options: seq<string>, correctAnswer: string)

  datatype Week = Week(id: string, questions: seq<Question>)

  /** `quizData.weeks`, keys in order. */
  type Bank = seq<Week>

  /** No week id appears twice, as for the keys of an object. */
  predicate DistinctIds(bank: Bank) {
    forall i, j :: 0 <= i < j < |bank| ==> bank[i].id != bank[j].id
  }

  /** `quizData.weeks[id].questions`: None when the bank has no such key
      (where the component would fail reading `.questions` of `undefined`). */
  function Lookup(bank: Bank, id: string): (r: Option<seq<Question>>)
    ensures r.None? <==> forall i :: 0 <= i < |bank| ==> bank[i].id != id
    ensures r.Some? ==> exists i :: 0 <= i < |bank| && bank[i].id == id && bank[i].questions == r.value
  {
    if bank == [] then None
    else if bank[0].id == id then Some(bank[0].questions)
    else
      var r := Lookup(bank[1..], id);
      assert forall i :: 1 <= i < |bank| ==> bank[i] == bank[1..][i - 1];
      r
  }

  /** With distinct ids, a week's id finds exactly that week's questions. */
  lemma {:induction false} LookupWeek(bank: Bank, i: nat)
    requires DistinctIds(bank) && i < |bank|
    ensures Lookup(bank, bank[i].id) == Some(bank[i].questions)
  {
    if i > 0 {
      assert bank[0].id != bank[i].id;
      assert bank[1..][i - 1] == bank[i];
      LookupWeek(bank[1..], i - 1);
    }
  }

  /** The `reduce` over the week keys at the "combined" selection: starting
      from `[]`, each week's questions are appended to the accumulator. The
      result drops and duplicates nothing: it has one entry per question of
      the bank and holds each question as often as the weeks together do. */
  function Combined(bank: Bank): (r: seq<Question>)
    ensures |r| == TotalCount(bank)
    ensures multiset(r) == Bag(bank)
  {
    if bank == [] then []
    else
      var init, last := bank[..|bank| - 1], bank[|bank| - 1];
      CountsSnoc(init, last);
      assert init + [last] == bank;
      Combined(init) + last.questions
  }

  /** Reference definition: every week's questions, one week after another. */
  function Flatten(bank: Bank): seq<Question> {
    if bank == [] then [] else bank[0].questions + Flatten(bank[1..])
  }

  /** Total number of questions in the bank. */
  function TotalCount(bank: Bank): nat {
    if bank == [] then 0 else |bank[0].questions| + TotalCount(bank[1..])
  }

  /** All questions of the bank, counted with multiplicity. */
  function Bag(bank: Bank): multiset<Question> {
    if bank == [] then multiset{} else multiset(bank[0].questions) + Bag(bank[1..])
  }

  lemma {:induction false} FlattenAppend(a: Bank, b: Bank)
    ensures Flatten(a + b) == Flatten(a) + Flatten(b)
    decreases |a|
  {
    if a == [] {
      assert a + b == b;
    } else {
      assert (a + b)[1..] == a[1..] + b;
      FlattenAppend(a[1..], b);
    }
  }

  /** Folding from the left with `concat` gives the plain concatenation of the
      weeks in key order. */
  lemma {:induction false} CombinedIsFlatten(bank: Bank)
    ensures Combined(bank) == Flatten(bank)
    decreases |bank|
  {
    if bank != [] {
      var init, last := bank[..|bank| - 1], bank[|bank| - 1];
      assert bank == init + [last];
      CombinedIsFlatten(init);
      FlattenAppend(init, [last]);
      assert Flatten([last]) == last.questions + Flatten([]);
    }
  }

  lemma {:induction false} FlattenCounts(bank: Bank)
    ensures |Flatten(bank)| == TotalCount(bank)
    ensures multiset(Flatten(bank)) == Bag(bank)
    decreases |bank|
  {
    if bank != [] {
      FlattenCounts(bank[1..]);
    }
  }

  /** Appending one week adds its questions to the count and to the bag. */
  lemma CountsSnoc(init: Bank, last: Week)
    ensures TotalCount(init + [last]) == TotalCount(init) + |last.questions|
    ensures Bag(init + [last]) == Bag(init) + multiset(last.questions)
  {
    FlattenAppend(init, [last]);
    FlattenCounts(init);
    FlattenCounts(init + [last]);
    assert Flatten([last]) == last.questions + Flatten([]);
  }

  /** In the reference concatenation, the `k`-th question of week `w` sits
      after the questions of all the weeks before it. */
  lemma {:induction false} FlattenBlock(bank: Bank, w: nat, k: nat)
    requires w < |bank| && k < |bank[w].questions|
    ensures TotalCount(bank[..w]) + k < |Flatten(bank)|
    ensures Flatten(bank)[TotalCount(bank[..w]) + k] == bank[w].questions[k]
    decreases w
  {
    if w == 0 {
      assert bank[..0] == [];
    } else {
      var rest := bank[1..];
      assert bank[..w][0] == bank[0] && bank[..w][1..] == rest[..w - 1];
      assert rest[w - 1] == bank[w];
      FlattenBlock(rest, w - 1, k);
    }
  }

  /** Each week's questions are a contiguous block of the combined list,
      starting after the questions of all the weeks before it. */
  lemma CombinedBlock(bank: Bank, w: nat, k: nat)
    requires w < |bank| && k < |bank[w].questions|
    ensures TotalCount(bank[..w]) + k < |Combined(bank)|
    ensures Combined(bank)[TotalCount(bank[..w]) + k] == bank[w].questions[k]
  {
    CombinedIsFlatten(bank);
    FlattenBlock(bank, w, k);
  }
}
