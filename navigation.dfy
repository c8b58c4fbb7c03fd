/**
  The assessment page's navigation state machine: the index of the current
  section, the index of the current question within that section, and the
  answers recorded so far, keyed by question id.

  The pure part (the derived values and the specification of each handler) is
  written as functions over `State`; the page's state record itself is the
  class `Assessment`, whose handlers update its fields in place.
 */
module Navigation {

  import opened Options
  import opened Catalog

  /** The page's state record; the unused `sectionProgress` field is not modelled. */
  datatype State = State(section: nat, question: nat, answers: map<string, string>)

  /** What `nextQuestion` does: move to another question, or finish and hand the answers over. */
  datatype Outcome = Moved(next: State) | Complete(answers: map<string, string>)

  /** The state the page starts in. */
  const Initial: State := State(0, 0, map[])

  /** Both indices designate a question of the catalog. */
  predicate InBounds(s: State)
  {
    s.section < |SectionNames| && s.question < |SectionQuestions(s.section)|
  }

  /** `sectionQuestions[currentQuestion]`, which is `undefined` past the end. */
  function CurrentQuestion(s: State): Option<Question>
  {
    var sectionQuestions := SectionQuestions(s.section);
    if s.question < |sectionQuestions| then Some(sectionQuestions[s.question]) else None
  }

  /** The position in the whole catalog of the question a state points at. */
  function Index(s: State): nat
    requires s.section < |SectionNames|
  {
    Bounds[s.section] + s.question
  }

  /** The current section's part of the progress: `q / n` of its 25 points. */
  function SectionShare(q: nat, n: nat): real
    requires n > 0
  {
    (q as real) / (n as real) * 25.0
  }

  /** Progress in percent: 25 per finished section plus the share of the current one. */
  function TotalProgress(s: State): real
    requires InBounds(s)
  {
    (s.section as real) * 25.0 + SectionShare(s.question, |SectionQuestions(s.section)|)
  }

  /** The "Next" button is enabled: the current question has a non-empty (truthy) answer. */
  predicate CanProceed(s: State)
  {
    match CurrentQuestion(s)
    case None => false
    case Some(q) => q.id in s.answers && s.answers[q.id] != ""
  }

  /** The "Previous" button is disabled on the very first question. */
  predicate IsFirstQuestion(s: State)
  {
    s.section == 0 && s.question == 0
  }

  /** `handleAnswer`: store `value` under the current question's id. */
  function Record(s: State, value: string): State
    requires CurrentQuestion(s).Some?
  {
    s.(answers := s.answers[CurrentQuestion(s).value.id := value])
  }

  /** `nextQuestion`: next question, else first question of the next section, else complete. */
  function Advance(s: State): Outcome
  {
    if s.question < |SectionQuestions(s.section)| - 1 then
      Moved(s.(question := s.question + 1))
    else if s.section < |SectionNames| - 1 then
      Moved(s.(section := s.section + 1, question := 0))
    else
      Complete(s.answers)
  }

  /** `previousQuestion`: previous question, else last question of the previous section, else stay. */
  function Retreat(s: State): State
    requires InBounds(s)
  {
    if s.question > 0 then
      s.(question := s.question - 1)
    else if s.section > 0 then
      SectionSizes(s.section - 1);
      s.(section := s.section - 1, question := |SectionQuestions(s.section - 1)| - 1)
    else
      s
  }

  // ---------------------------------------------------------------------------
  // The catalog as seen through the indices

  /** The start state points at the first catalog question and holds no answers. */
  lemma InitialState()
    ensures InBounds(Initial) && Index(Initial) == 0 && IsFirstQuestion(Initial)
    ensures Initial.answers == map[]
    ensures CurrentQuestion(Initial) == Some(Questions[0])
  {
    SectionSizes(0);
    CurrentAt(Initial);
  }

  /** An in-bounds state points at catalog entry `Index(s)`, so `currentQuestion` is defined. */
  lemma CurrentAt(s: State)
    requires InBounds(s)
    ensures Index(s) < |Questions|
    ensures CurrentQuestion(s) == Some(Questions[Index(s)])
  {
    SectionSizes(s.section);
    SectionRun(s.section);
    RunIndex(SectionQuestions(s.section), Questions, Bounds[s.section], Bounds[s.section + 1], s.question);
  }

  /** Entry `k` of the slice `qs[lo..hi]` is entry `lo + k` of `qs`. */
  lemma RunIndex(run: seq<Question>, qs: seq<Question>, lo: nat, hi: nat, k: nat)
    requires lo <= hi <= |qs| && run == qs[lo..hi] && k < |run|
    ensures lo + k < |qs| && run[k] == qs[lo + k]
  {
  }

  /** The section starts never decrease. */
  lemma BoundsMonotone(i: nat, j: nat)
    requires i <= j <= |SectionNames|
    ensures Bounds[i] <= Bounds[j]
  {
  }

  /** An in-bounds state's catalog position lies within its own section's run. */
  lemma IndexInRun(s: State)
    requires InBounds(s)
    ensures Bounds[s.section] <= Index(s) < Bounds[s.section + 1] <= |Questions|
  {
    SectionSizes(s.section);
  }

  /** A question of a later section comes later in the catalog. */
  lemma LaterSectionLaterIndex(a: State, b: State)
    requires InBounds(a) && InBounds(b) && a.section < b.section
    ensures Index(a) < Index(b)
  {
    IndexInRun(a);
    IndexInRun(b);
    BoundsMonotone(a.section + 1, b.section);
  }

  /** Two in-bounds states at the same catalog position have the same indices. */
  lemma IndexDetermines(a: State, b: State)
    requires InBounds(a) && InBounds(b) && Index(a) == Index(b)
    ensures a.section == b.section && a.question == b.question
  {
    if a.section < b.section {
      LaterSectionLaterIndex(a, b);
    } else if b.section < a.section {
      LaterSectionLaterIndex(b, a);
    }
  }

  /** The first question is exactly catalog position 0. */
  lemma FirstIsIndexZero(s: State)
    requires InBounds(s)
    ensures IsFirstQuestion(s) <==> Index(s) == 0
  {
    if s.section > 0 {
      BoundsMonotone(1, s.section);
    }
  }

  // ---------------------------------------------------------------------------
  // The handlers

  /** Inside a section, `nextQuestion` goes to the next question of that section. */
  lemma AdvanceWithin(s: State)
    requires InBounds(s) && s.question + 1 < |SectionQuestions(s.section)|
    ensures Advance(s) == Moved(s.(question := s.question + 1))
    ensures InBounds(Advance(s).next) && Index(Advance(s).next) == Index(s) + 1
  {
  }

  /** On a section's last question, `nextQuestion` goes to the next section's first question. */
  lemma AdvanceAcross(s: State)
    requires InBounds(s) && s.question + 1 == |SectionQuestions(s.section)|
    requires s.section + 1 < |SectionNames|
    ensures Advance(s) == Moved(s.(section := s.section + 1, question := 0))
    ensures InBounds(Advance(s).next) && Index(Advance(s).next) == Index(s) + 1
    ensures Index(s) + 1 < |Questions|
  {
    SectionSizes(s.section);
    SectionSizes(s.section + 1);
  }

  /** On the last question of the last section, `nextQuestion` completes. */
  lemma AdvanceLast(s: State)
    requires InBounds(s) && s.question + 1 == |SectionQuestions(s.section)|
    requires s.section + 1 == |SectionNames|
    ensures Advance(s) == Complete(s.answers)
    ensures Index(s) + 1 == |Questions|
  {
    SectionSizes(s.section);
  }

  /**
    `nextQuestion` walks the catalog in declaration order: from any question
    but the last it moves to the next catalog position, keeping the answers;
    from the last question of the last section it completes, handing over the
    whole answers map.
   */
  lemma AdvanceStep(s: State)
    requires InBounds(s)
    ensures Index(s) + 1 < |Questions| ==>
      Advance(s).Moved? && InBounds(Advance(s).next)
      && Index(Advance(s).next) == Index(s) + 1
      && Advance(s).next.answers == s.answers
    ensures Index(s) + 1 == |Questions| ==> Advance(s) == Complete(s.answers)
  {
    if s.question + 1 < |SectionQuestions(s.section)| {
      AdvanceWithin(s);
      IndexInRun(Advance(s).next);
    } else if s.section + 1 < |SectionNames| {
      AdvanceAcross(s);
    } else {
      AdvanceLast(s);
    }
  }

  /**
    `previousQuestion` walks back one catalog position, keeping the answers,
    and stays put exactly on the first question.
   */
  lemma RetreatStep(s: State)
    requires InBounds(s)
    ensures InBounds(Retreat(s)) && Retreat(s).answers == s.answers
    ensures Index(Retreat(s)) == if Index(s) == 0 then 0 else Index(s) - 1
    ensures Retreat(s) == s <==> IsFirstQuestion(s)
  {
    FirstIsIndexZero(s);
    if s.question == 0 && s.section > 0 {
      SectionSizes(s.section - 1);
    }
  }

  /** Going back undoes every `nextQuestion` that does not complete. */
  lemma RetreatUndoesAdvance(s: State)
    requires InBounds(s) && Advance(s).Moved?
    ensures InBounds(Advance(s).next)
    ensures Retreat(Advance(s).next) == s
  {
    CurrentAt(s);
    AdvanceStep(s);
    var t := Advance(s).next;
    RetreatStep(t);
    IndexDetermines(Retreat(t), s);
  }

  /** Going forward undoes every `previousQuestion` that moves. */
  lemma AdvanceUndoesRetreat(s: State)
    requires InBounds(s) && !IsFirstQuestion(s)
    ensures Advance(Retreat(s)) == Moved(s)
  {
    RetreatStep(s);
    FirstIsIndexZero(s);
    CurrentAt(s);
    var r := Retreat(s);
    AdvanceStep(r);
    IndexDetermines(Advance(r).next, s);
  }

  /** Both handlers keep the indices in bounds, so `currentQuestion` stays defined. */
  lemma StepsStayInBounds(s: State)
    requires InBounds(s)
    ensures Advance(s).Moved? ==> InBounds(Advance(s).next)
    ensures InBounds(Retreat(s))
    ensures CurrentQuestion(s).Some?
  {
    CurrentAt(s);
    AdvanceStep(s);
    RetreatStep(s);
  }

  // ---------------------------------------------------------------------------
  // Answers and the gate on "Next"

  /** Recording an answer only touches the current question's entry. */
  lemma RecordUpdatesOneKey(s: State, value: string)
    requires CurrentQuestion(s).Some?
    ensures var id := CurrentQuestion(s).value.id;
      && Record(s, value).section == s.section && Record(s, value).question == s.question
      && Record(s, value).answers.Keys == s.answers.Keys + {id}
      && Record(s, value).answers[id] == value
      && forall k :: k in s.answers && k != id ==> Record(s, value).answers[k] == s.answers[k]
  {
  }

  /** A later answer to the same question replaces an earlier one. */
  lemma RecordOverwrites(s: State, first: string, second: string)
    requires CurrentQuestion(s).Some?
    ensures CurrentQuestion(Record(s, first)).Some?
    ensures Record(Record(s, first), second) == Record(s, second)
  {
  }

  /** Recording the same answer twice is the same as recording it once. */
  lemma RecordIdempotent(s: State, value: string)
    requires CurrentQuestion(s).Some?
    ensures CurrentQuestion(Record(s, value)).Some?
    ensures Record(Record(s, value), value) == Record(s, value)
  {
  }

  /** Answering with a non-empty value enables "Next"; the empty string, being falsy, does not. */
  lemma AnswerGatesProceed(s: State, value: string)
    requires CurrentQuestion(s).Some?
    ensures CanProceed(Record(s, value)) <==> value != ""
  {
  }

  // ---------------------------------------------------------------------------
  // Progress

  /** A section's share stays below its 25 points. */
  lemma ShareBelowQuarter(q: nat, n: nat)
    requires q < n
    ensures 0.0 <= SectionShare(q, n) < 25.0
  {
    var f := (q as real) / (n as real);
    assert f * (n as real) == q as real;
  }

  /** The first question of a section contributes nothing of its share. */
  lemma ShareOfFirst(n: nat)
    requires n > 0
    ensures SectionShare(0, n) == 0.0
  {
    var z := (0 as real) / (n as real);
    assert z * (n as real) == 0.0;
  }

  /** One more question of a section of n questions is a larger share. */
  lemma ShareIncreases(q: nat, n: nat)
    requires q + 1 < n
    ensures SectionShare(q, n) < SectionShare(q + 1, n)
  {
    var f, g := (q as real) / (n as real), ((q + 1) as real) / (n as real);
    assert f * (n as real) == q as real;
    assert g * (n as real) == (q + 1) as real;
  }

  /** The progress value lies in [0, 100). */
  lemma ProgressRange(s: State)
    requires InBounds(s)
    ensures 0.0 <= TotalProgress(s) < 100.0
  {
    ShareBelowQuarter(s.question, |SectionQuestions(s.section)|);
  }

  /** On a section's first question the progress value is exactly 25 per finished section. */
  lemma ProgressAtSectionStart(s: State)
    requires InBounds(s) && s.question == 0
    ensures TotalProgress(s) == (s.section as real) * 25.0
  {
    ShareOfFirst(|SectionQuestions(s.section)|);
  }

  /** Moving to the next question of the same section increases the progress value. */
  lemma ProgressWithinSection(s: State)
    requires InBounds(s) && s.question + 1 < |SectionQuestions(s.section)|
    ensures InBounds(s.(question := s.question + 1))
    ensures TotalProgress(s) < TotalProgress(s.(question := s.question + 1))
  {
    ShareIncreases(s.question, |SectionQuestions(s.section)|);
  }

  /** Moving to the first question of the next section increases the progress value. */
  lemma ProgressAcrossSections(s: State)
    requires InBounds(s) && s.section + 1 < |SectionNames|
    ensures InBounds(s.(section := s.section + 1, question := 0))
    ensures TotalProgress(s) < TotalProgress(s.(section := s.section + 1, question := 0))
  {
    var t := s.(section := s.section + 1, question := 0);
    SectionSizes(s.section + 1);
    ShareBelowQuarter(s.question, |SectionQuestions(s.section)|);
    ProgressAtSectionStart(t);
  }

  /** Every `nextQuestion` that does not complete strictly increases the progress value. */
  lemma ProgressIncreases(s: State)
    requires InBounds(s) && Advance(s).Moved?
    ensures InBounds(Advance(s).next)
    ensures TotalProgress(s) < TotalProgress(Advance(s).next)
  {
    if s.question + 1 < |SectionQuestions(s.section)| {
      assert Advance(s).next == s.(question := s.question + 1);
      ProgressWithinSection(s);
    } else {
      assert Advance(s).next == s.(section := s.section + 1, question := 0);
      ProgressAcrossSections(s);
    }
  }

  // ---------------------------------------------------------------------------
  // The page's state record and its handlers

  /** The assessment page's state; each handler updates the fields in place. */
  class Assessment {
    var currentSection: nat
    var currentQuestion: nat
    var answers: map<string, string>

    /** The fields as a `State` value. */
    function Snapshot(): State
      reads this
    {
      State(currentSection, currentQuestion, answers)
    }

    /** The indices designate a question of the catalog. */
    predicate Valid()
      reads this
    {
      InBounds(Snapshot())
    }

    /** The initial state: first question of the first section, no answers. */
    constructor ()
      ensures Valid() && Snapshot() == Initial
    {
      currentSection := 0;
      currentQuestion := 0;
      answers := map[];
      new;
      InitialState();
    }

    /** `handleAnswer`: store `value` under the current question's id. */
    method HandleAnswer(value: string)
      requires Valid()
      modifies this
      ensures Valid()
      ensures Snapshot() == Record(old(Snapshot()), value)
    {
      StepsStayInBounds(Snapshot());
      var sectionQuestions := SectionQuestions(currentSection);
      var question := sectionQuestions[currentQuestion];
      answers := answers[question.id := value];
    }

    /**
      `nextQuestion`: move on, or, past the last question, leave the indices
      alone and hand the answers over (`None` when the page stays).
     */
    method NextQuestion() returns (handover: Option<map<string, string>>)
      requires Valid()
      modifies this
      ensures Valid()
      ensures handover == None ==> Advance(old(Snapshot())) == Moved(Snapshot())
      ensures handover != None ==>
        Advance(old(Snapshot())) == Complete(handover.value) && Snapshot() == old(Snapshot())
    {
      StepsStayInBounds(Snapshot());
      var sectionQuestions := SectionQuestions(currentSection);
      if currentQuestion < |sectionQuestions| - 1 {
        currentQuestion := currentQuestion + 1;
        handover := None;
      } else if currentSection < |SectionNames| - 1 {
        currentSection := currentSection + 1;
        currentQuestion := 0;
        handover := None;
      } else {
        handover := Some(answers);
      }
    }

    /** `previousQuestion`: step back, into the previous section's last question if need be. */
    method PreviousQuestion()
      requires Valid()
      modifies this
      ensures Valid()
      ensures Snapshot() == Retreat(old(Snapshot()))
    {
      ghost var s := Snapshot();
      RetreatStep(s);
      if currentQuestion > 0 {
        currentQuestion := currentQuestion - 1;
      } else if currentSection > 0 {
        var prevSectionQuestions := SectionQuestions(currentSection - 1);
        currentSection := currentSection - 1;
        currentQuestion := |prevSectionQuestions| - 1;
      }
      assert Snapshot() == Retreat(s);
    }
  }
}
