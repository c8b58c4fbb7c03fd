/**
  A session on the assessment page: the user picks answers and presses the
  two buttons. "Previous" is disabled on the first question and "Next" is
  disabled until the current question has a non-empty answer, so a pressed
  button that is disabled does nothing. Pressing "Next" on the last question
  leaves the page and hands the answers to the results page.
 */
module Session {

  import opened Catalog
  import opened Navigation
  import opened Scoring

  /** One user action on the page. */
  datatype Event = Choose(value: string) | PressNext | PressPrevious

  /** The effect of one event; a disabled button has none. */
  function Step(s: State, e: Event): Outcome
    requires InBounds(s)
  {
    match e
    case Choose(value) =>
      StepsStayInBounds(s);
      Moved(Record(s, value))
    case PressNext =>
      if CanProceed(s) then Advance(s) else Moved(s)
    case PressPrevious =>
      if IsFirstQuestion(s) then Moved(s) else Moved(Retreat(s))
  }

  /** Every event keeps the indices in bounds. */
  lemma StepInBounds(s: State, e: Event)
    requires InBounds(s)
    ensures Step(s, e).Moved? ==> InBounds(Step(s, e).next)
  {
    StepsStayInBounds(s);
    if e.Choose? {
      RecordUpdatesOneKey(s, e.value);
    }
  }

  /** The events in order, up to the one that completes the assessment. */
  function Run(s: State, events: seq<Event>): Outcome
    requires InBounds(s)
    decreases |events|
  {
    if events == [] then Moved(s)
    else
      match Step(s, events[0])
      case Complete(answers) => Complete(answers)
      case Moved(t) =>
        StepInBounds(s, events[0]);
        Run(t, events[1..])
  }

  // ---------------------------------------------------------------------------
  // The invariant of a session

  /** Every entry of `qs` before position `k` has a non-empty answer. */
  ghost predicate AnsweredUpTo(qs: seq<Question>, k: nat, answers: map<string, string>)
  {
    forall i :: 0 <= i < |qs| && i < k ==> qs[i].id in answers && answers[qs[i].id] != ""
  }

  /**
    The indices are in bounds, every catalog question before the current one
    has a non-empty answer, and only catalog ids are keys of the answers.
   */
  ghost predicate Progressed(s: State)
  {
    && InBounds(s)
    && AnsweredUpTo(Questions, Index(s), s.answers)
    && s.answers.Keys <= Ids(Questions)
  }

  /** A handed-over answers map: one non-empty answer for every catalog question. */
  ghost predicate Finished(answers: map<string, string>)
  {
    && answers.Keys == Ids(Questions)
    && forall k :: k in answers ==> answers[k] != ""
  }

  /** Overwriting the answer at position `k` keeps every earlier answer, the ids being distinct. */
  lemma AnswerKeepsEarlier(qs: seq<Question>, k: nat, answers: map<string, string>, value: string)
    requires k < |qs| && DistinctIds(qs) && AnsweredUpTo(qs, k, answers)
    ensures AnsweredUpTo(qs, k, answers[qs[k].id := value])
  {
    forall i | 0 <= i < |qs| && i < k
      ensures qs[i].id != qs[k].id
    {
    }
  }

  /** Answering position `k` extends the answered prefix by one. */
  lemma AnsweredNext(qs: seq<Question>, k: nat, answers: map<string, string>)
    requires k < |qs| && AnsweredUpTo(qs, k, answers)
    requires qs[k].id in answers && answers[qs[k].id] != ""
    ensures AnsweredUpTo(qs, k + 1, answers)
  {
  }

  /** A shorter prefix of an answered prefix is answered. */
  lemma AnsweredFewer(qs: seq<Question>, j: nat, k: nat, answers: map<string, string>)
    requires j <= k && AnsweredUpTo(qs, k, answers)
    ensures AnsweredUpTo(qs, j, answers)
  {
  }

  /** Answers to every entry, and to nothing else, cover exactly the ids, none empty. */
  lemma AnsweredAll(qs: seq<Question>, answers: map<string, string>)
    requires AnsweredUpTo(qs, |qs|, answers) && answers.Keys <= Ids(qs)
    ensures answers.Keys == Ids(qs)
    ensures forall k :: k in answers ==> answers[k] != ""
  {
    IdsOf(qs);
    forall k | k in Ids(qs)
      ensures k in answers
    {
      var i :| 0 <= i < |qs| && qs[i].id == k;
    }
  }

  /** The id at position `k` is an id of `qs`. */
  lemma IdIn(qs: seq<Question>, k: nat)
    requires k < |qs|
    ensures qs[k].id in Ids(qs)
  {
    IdsOf(qs);
  }

  lemma StartProgressed()
    ensures Progressed(Initial)
  {
    InitialState();
  }

  /**
    Choosing an answer keeps the invariant: it only writes the current
    question's id, which no earlier question shares.
   */
  lemma ChooseKeeps(s: State, value: string)
    requires Progressed(s)
    ensures CurrentQuestion(s).Some? && Progressed(Record(s, value))
  {
    CurrentAt(s);
    IdsDistinct();
    IdIn(Questions, Index(s));
    AnswerKeepsEarlier(Questions, Index(s), s.answers, value);
  }

  /** An enabled "Next" moves one question on with the current one answered, or finishes. */
  lemma NextKeeps(s: State)
    requires Progressed(s) && CanProceed(s)
    ensures Advance(s).Moved? ==> Progressed(Advance(s).next)
    ensures Advance(s).Complete? ==> Finished(Advance(s).answers)
  {
    CurrentAt(s);
    AdvanceStep(s);
    AnsweredNext(Questions, Index(s), s.answers);
    if Advance(s).Complete? {
      AnsweredAll(Questions, s.answers);
    }
  }

  /** "Previous" only moves back and keeps the answers. */
  lemma PreviousKeeps(s: State)
    requires Progressed(s)
    ensures Progressed(Retreat(s))
  {
    RetreatStep(s);
    AnsweredFewer(Questions, Index(Retreat(s)), Index(s), s.answers);
  }

  /** One event keeps the invariant, and a completing event hands over a finished map. */
  lemma StepKeeps(s: State, e: Event)
    requires Progressed(s)
    ensures Step(s, e).Moved? ==> Progressed(Step(s, e).next)
    ensures Step(s, e).Complete? ==> Finished(Step(s, e).answers)
  {
    if e.Choose? {
      ChooseKeeps(s, e.value);
    } else if e.PressNext? && CanProceed(s) {
      NextKeeps(s);
    } else if e.PressPrevious? && !IsFirstQuestion(s) {
      PreviousKeeps(s);
    }
  }

  /** Any run keeps the invariant, and any completing run hands over a finished map. */
  lemma {:induction false} RunKeeps(s: State, events: seq<Event>)
    requires Progressed(s)
    ensures Run(s, events).Moved? ==> Progressed(Run(s, events).next)
    ensures Run(s, events).Complete? ==> Finished(Run(s, events).answers)
    decreases |events|
  {
    if events != [] {
      StepKeeps(s, events[0]);
      if Step(s, events[0]).Moved? {
        RunKeeps(Step(s, events[0]).next, events[1..]);
      }
    }
  }

  // ---------------------------------------------------------------------------
  // What a session hands to the results page

  /** A finished map has exactly one entry per catalog question. */
  lemma FinishedSize(answers: map<string, string>)
    requires Finished(answers)
    ensures |answers| == |Questions| == 11
  {
    CatalogIds();
    assert answers.Keys == Ids(Questions);
  }

  /**
    Whatever the user does, a session that reaches the results page has
    answered all eleven questions, so it is always scored 95, 90, 93 and "Yes".
   */
  lemma CompletedSession(events: seq<Event>)
    ensures InBounds(Initial)
    ensures Run(Initial, events).Complete? ==>
      var answers := Run(Initial, events).answers;
      var r := CalculateResults(answers);
      && Finished(answers) && |answers| == 11
      && r.psychometricScore == 95 && r.technicalScore == 90
      && r.overallScore == 93 && r.recommendation == Yes
  {
    StartProgressed();
    RunKeeps(Initial, events);
    if Run(Initial, events).Complete? {
      var answers := Run(Initial, events).answers;
      FinishedSize(answers);
      SaturatedResults(answers);
    }
  }

  /**
    Choosing a non-empty answer enables "Next", and pressing it then gets on:
    to the next catalog question, or, on the last one, to the results page.
   */
  lemma ChoiceUnlocksNext(s: State, value: string)
    requires Progressed(s) && value != ""
    ensures CurrentQuestion(s).Some? && Step(s, Choose(value)) == Moved(Record(s, value))
    ensures InBounds(Record(s, value)) && CanProceed(Record(s, value))
    ensures Index(s) + 1 < |Questions| ==>
      var next := Step(Record(s, value), PressNext);
      next.Moved? && InBounds(next.next) && Index(next.next) == Index(s) + 1
    ensures Index(s) + 1 == |Questions| ==>
      Step(Record(s, value), PressNext) == Complete(Record(s, value).answers)
  {
    ChooseKeeps(s, value);
    var t := Record(s, value);
    AnswerGatesProceed(s, value);
    assert Step(t, PressNext) == Advance(t);
    AdvanceStep(t);
  }
}
