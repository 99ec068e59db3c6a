/**
  What an answer does to its question: which option it picks, what is stored and answered
  then, and what an answer that picks none does.
  */
module Answers {
  import opened Basics
  import opened EventTypes
  import opened EventSpec
  import opened EventLedger
  import opened LedgerOps
  import opened QuestionMachine

  // ----- Which option an answer picks ----------------------------------------------------

  /** The phrases that leave the choice to the recommendation. */
  predicate Delegates(answer: string) {
    answer in {"按推荐答案", "采用推荐答案", "用推荐答案", "你来定", "模型决定", "按你的推荐"}
  }

  /** The phrases that call the question off. */
  predicate Cancels(answer: string) {
    answer in {"cancel", "取消", "取消本轮", "取消事件体验", "放弃本轮事件"}
  }

  /** A letter names an option by its place: A or a the first, up to E or e the fifth. */
  predicate LetterFor(answer: string, i: int) {
    0 <= i < 5 && (answer == ["ABCDE"[i]] || answer == ["abcde"[i]])
  }

  ghost predicate NamesId(p: QuestionPayload, answer: string, i: int) {
    0 <= i < |p.options| && CaseFold(p.options[i].id) == CaseFold(answer)
  }

  ghost predicate NamesPlace(p: QuestionPayload, answer: string, i: int) { i < |p.options| && LetterFor(answer, i) }

  /** A delegation picks the recommended option; else an id decides before a letter, and a letter before the one label that reads so. */
  ghost predicate Picks(p: QuestionPayload, answer: string, i: int) {
    && 0 <= i < |p.options|
    && if Delegates(answer) then p.options[i].id == p.recommended
       else if exists j :: NamesId(p, answer, j) then NamesId(p, answer, i)
       else if exists j :: NamesPlace(p, answer, j) then NamesPlace(p, answer, i)
       else OnlyLabel(CaseFold, p.options, answer, i)
  }

  lemma LettersDecide(answer: string)
    ensures LetterIndex(answer).Some? ==> LetterFor(answer, LetterIndex(answer).value)
    ensures forall i :: LetterFor(answer, i) ==> LetterIndex(answer) == Some(i)
  {
    assert "ABCDE"[0] == 'A' && "ABCDE"[1] == 'B' && "ABCDE"[2] == 'C' && "ABCDE"[3] == 'D' && "ABCDE"[4] == 'E';
    assert "abcde"[0] == 'a' && "abcde"[1] == 'b' && "abcde"[2] == 'c' && "abcde"[3] == 'd' && "abcde"[4] == 'e';
    if LetterIndex(answer).Some? { assert answer == [answer[0]]; }
  }

  /** The selection finds what the answer picks, and nothing exactly when it picks nothing. */
  lemma PicksDecide(p: QuestionPayload, answer: string)
    requires GoodQuestion(p)
    ensures forall i :: Picks(p, answer, i) ==> SelectOption(CaseFold, p, answer) == Some(p.options[i])
    ensures SelectOption(CaseFold, p, answer).Some? <==> exists i :: Picks(p, answer, i)
  {
    hide SelectOption, HasDuplicates, CaseFold;
    if Delegates(answer) {
      DelegationPicks(p, answer);
    } else if i :| NamesId(p, answer, i) {
      assert Picks(p, answer, i);
      forall j | Picks(p, answer, j) ensures SelectOption(CaseFold, p, answer) == Some(p.options[j]) { NamedIdIsSelected(CaseFold, p, j, answer); }
    } else {
      forall i | 0 <= i < |p.options| ensures CaseFold(p.options[i].id) != CaseFold(answer) { assert !NamesId(p, answer, i); }
      LetterOrLabelIsSelected(CaseFold, p, answer);
      LettersDecide(answer);
      PlaceOrLabelPicks(p, answer);
    }
  }

  lemma DelegationPicks(p: QuestionPayload, answer: string)
    requires GoodQuestion(p) && Delegates(answer)
    ensures exists i :: Picks(p, answer, i)
    ensures forall i :: Picks(p, answer, i) ==> SelectOption(CaseFold, p, answer) == Some(p.options[i])
  {
    hide SelectOption, HasDuplicates, CaseFold;
    var o :| o in p.options && o.id == p.recommended;
    var i :| 0 <= i < |p.options| && p.options[i] == o;
    assert Picks(p, answer, i);
    forall j | Picks(p, answer, j) ensures SelectOption(CaseFold, p, answer) == Some(p.options[j]) {
      DelegationSelectsRecommended(CaseFold, p, j, answer);
    }
  }

  lemma PlaceOrLabelPicks(p: QuestionPayload, answer: string)
    requires !Delegates(answer) && forall i :: !NamesId(p, answer, i)
    requires LetterIndex(answer).Some? ==> LetterFor(answer, LetterIndex(answer).value)
    requires forall i :: LetterFor(answer, i) ==> LetterIndex(answer) == Some(i)
    requires var letter := LetterIndex(answer);
             if letter.Some? && letter.value < |p.options| then SelectOption(CaseFold, p, answer) == Some(p.options[letter.value])
             else
               && (SelectOption(CaseFold, p, answer).Some? <==> exists i :: OnlyLabel(CaseFold, p.options, answer, i))
               && forall i :: OnlyLabel(CaseFold, p.options, answer, i) ==> SelectOption(CaseFold, p, answer) == Some(p.options[i])
    ensures forall i :: Picks(p, answer, i) ==> SelectOption(CaseFold, p, answer) == Some(p.options[i])
    ensures SelectOption(CaseFold, p, answer).Some? <==> exists i :: Picks(p, answer, i)
  {
    hide SelectOption, CaseFold, LetterIndex, LetterFor;
    var letter := LetterIndex(answer);
    if letter.Some? && letter.value < |p.options| {
      assert NamesPlace(p, answer, letter.value);
      assert Picks(p, answer, letter.value);
    } else {
      assert forall i :: !NamesPlace(p, answer, i);
      if i :| OnlyLabel(CaseFold, p.options, answer, i) { assert Picks(p, answer, i); }
      assert forall i :: Picks(p, answer, i) ==> OnlyLabel(CaseFold, p.options, answer, i);
    }
  }

  // ----- What is stored and answered then ----------------------------------------------------

  /** The question is answered with option i; no other row changed. */
  ghost predicate SettledWith(t: Tables, h: Digest, answer: string, now: nat, i: int, o: Outcome)
    requires h in t.questions && 0 <= i < |t.questions[h].payload.options|
  {
    var option := t.questions[h].payload.options[i];
    var row := t.questions[h].(status := Answered, selected := Some(option.id), selectedAt := Some(now));
    && o.Ok? && o.value.tables == t.(questions := t.questions[h := row])
    && o.value.body == AnswerBody(Selected, if Delegates(answer) then RecommendedDelegation else ExplicitChoice, row, Some(option), None)
  }

  /** The first answer that picks nothing counts one and asks again; the second blocks until there is a choice, and so does any later one. */
  ghost predicate AskedAgain(t: Tables, h: Digest, o: Outcome)
    requires h in t.questions
  {
    var first := t.questions[h].attempts == 0;
    var row := t.questions[h].(attempts := if first then 1 else 2, status := if first then AwaitingAnswer else AwaitingEventExperience);
    && o.Ok? && o.value.tables == t.(questions := t.questions[h := row])
    && o.value.body == AnswerBody(if first then Repeat else AwaitingExplicitChoice, if first then RepeatedOnce else LimitReached, row, None, None)
  }

  /** An answer to a question that has one: refused if it picks another option, else it changes nothing and returns the stored one. */
  ghost predicate StaysAnswered(t: Tables, h: Digest, answer: string, o: Outcome)
    requires h in t.questions
  {
    var row := t.questions[h];
    if exists i :: Picks(row.payload, answer, i) && Some(row.payload.options[i].id) != row.selected
    then o == Err(QuestionAlreadyAnswered)
    else && o.Ok? && o.value.tables == t && o.value.body.AnswerBody? && o.value.body.option.Some?
         && o.value.body.option.value in row.payload.options && Some(o.value.body.option.value.id) == row.selected
         && o.value.body == AnswerBody(Selected, AlreadyAnswered, row, o.value.body.option, None)
  }

  /** What an answer does, case by case. */
  ghost predicate AnswerDoes(t: Tables, h: Digest, answer: string, now: nat, o: Outcome) {
    if h !in t.questions then o == Err(QuestionNotFound)
    else
      var row := t.questions[h];
      if row.status == QuestionRetired then o == Err(QuestionAlreadyRetired)
      else if row.status == Answered then StaysAnswered(t, h, answer, o)
      else if row.expiresAt <= now || Cancels(answer) then ClosedAndCleanedUp(t, h, now, o)
      else if exists i :: Picks(row.payload, answer, i) then
        forall i :: Picks(row.payload, answer, i) ==> SettledWith(t, h, answer, now, i, o)
      else AskedAgain(t, h, o)
  }

  /** In a reachable state an answer does exactly that. */
  lemma AnswerDecides(t: Tables, h: Digest, answer: string, now: nat)
    requires ContractBound(t.seeds, t.contracts) && QuestionInv(t.seeds, t.questions)
    ensures AnswerDoes(t, h, answer, now, AnswerSpec(t, h, answer, now))
  {
    if h in t.questions {
      var row := t.questions[h];
      assert GoodQuestion(row.payload) && GoodState(row);
      PicksDecide(row.payload, answer);
      hide QuestionInv, GoodQuestion, Picks, ClosedAndCleanedUp, SelectOption, CaseFold;
      if row.status == Answered {
        RepeatsAreDecided(t, h, answer, now);
      } else if Open(row.status) {
        if row.expiresAt <= now || Cancels(answer) { AnswerCleansUp(t, h, answer, now); } else { OpenIsDecided(t, h, answer, now); }
      }
    }
  }

  lemma OpenIsDecided(t: Tables, h: Digest, answer: string, now: nat)
    requires h in t.questions && Open(t.questions[h].status) && now < t.questions[h].expiresAt && !Cancels(answer)
    requires GoodState(t.questions[h])
    requires forall i :: Picks(t.questions[h].payload, answer, i) ==>
               SelectOption(CaseFold, t.questions[h].payload, answer) == Some(t.questions[h].payload.options[i])
    requires SelectOption(CaseFold, t.questions[h].payload, answer).Some? <==> exists i :: Picks(t.questions[h].payload, answer, i)
    ensures var o := AnswerSpec(t, h, answer, now);
            if exists i :: Picks(t.questions[h].payload, answer, i)
            then forall i :: Picks(t.questions[h].payload, answer, i) ==> SettledWith(t, h, answer, now, i, o)
            else AskedAgain(t, h, o)
  {
    hide Picks, SelectOption, CaseFold, Cleanup, CleanupCounts;
  }

  lemma RepeatsAreDecided(t: Tables, h: Digest, answer: string, now: nat)
    requires QuestionInv(t.seeds, t.questions) && h in t.questions && t.questions[h].status == Answered
    requires forall i :: Picks(t.questions[h].payload, answer, i) ==>
               SelectOption(CaseFold, t.questions[h].payload, answer) == Some(t.questions[h].payload.options[i])
    requires SelectOption(CaseFold, t.questions[h].payload, answer).Some? <==> exists i :: Picks(t.questions[h].payload, answer, i)
    ensures StaysAnswered(t, h, answer, AnswerSpec(t, h, answer, now))
  {
    hide Picks, SelectOption, CaseFold, AnswerSpec, QuestionInv;
    RepeatedAnswers(t, h, answer, now);
    SelectedOptionFinds(t.questions[h].payload.options, t.questions[h].selected.value);
    hide SelectedOption;
  }
}
