/** Properties of the quiz session rules: rounds are closed at most once,
    the round timer only closes its own round, selection and answers behave
    as the host and players expect. */
module QuizLaws {
  import opened Wrappers
  import opened JavaText
  import opened QuizModel

  /** Joining adds one player unless the id is already taken, and names the
      player by the nickname sent or, when none or an empty one is sent, by
      "Player" and the count the session will then have. */
  lemma JoinNaming(s: Session, nickname: Option<string>, id: string, now: int)
    ensures var r := Join(s, nickname, id, now);
      |r.session.players| == |s.players| + (if id in s.players then 0 else 1)
    ensures nickname.None? || nickname.value == [] ==>
      Join(s, nickname, id, now).session.players[id].nickname == "Player" + NatToString(|s.players| + 1)
    ensures nickname.Some? && nickname.value != [] ==>
      Join(s, nickname, id, now).session.players[id].nickname == nickname.value
  {
    var r := Join(s, nickname, id, now);
    if id in s.players {
      assert r.session.players.Keys == s.players.Keys;
    } else {
      assert r.session.players.Keys == s.players.Keys + {id};
      assert |r.session.players.Keys| == |s.players.Keys| + 1;
    }
  }

  /** `host.startQuiz` falls back on the whole bank when no questions were
      selected; with questions it opens joining and tells everyone, and with
      none at all only the sender gets an error and nothing changes. */
  lemma StartQuizUsesBank(s: Session, bank: seq<Question>, now: int)
    ensures var r := Handle(s, StartQuiz, bank, now);
      (s.questions == [] ==> r.session.questions == bank)
      && (s.questions != [] ==> r.session.questions == s.questions)
    ensures var r := Handle(s, StartQuiz, bank, now);
      r.session.questions != [] ==>
        r.session == s.(questions := r.session.questions, state := WaitJoin)
        && r.broadcast == Some(QuizStarting) && r.reply == None
    ensures var r := Handle(s, StartQuiz, bank, now);
      s.questions == [] && bank == [] ==>
        r.session == s && r.reply == Some(Error("No questions available")) && r.broadcast == None
  {
  }

  /** Ending a round twice in a row broadcasts at most once: the second call
      changes nothing and sends nothing. */
  lemma EndQuestionTwice(s: Session)
    ensures var once := EndQuestion(s); EndQuestion(once.session) == Step(once.session, None)
    ensures s.state == QuestionActive && CurrentQuestion(s).Some?
      && 0 <= CurrentQuestion(s).value.correctIndex < |CurrentQuestion(s).value.choices|
      ==> EndQuestion(s).sent.Some?
  {
  }

  /** With a single question, the first advance opens its round and the
      second finishes the quiz without opening another. */
  lemma OneQuestionQuiz(s: Session, t1: int, t2: int)
    requires |s.questions| == 1 && s.index == -1
    ensures Advance(s, t1).sent.Some? && Advance(s, t1).sent.value.QuestionStart?
    ensures var second := Advance(Advance(s, t1).session, t2);
      second.session.state == Result && second.sent == Some(QuizFinish)
  {
  }

  predicate PairwiseDistinct(qs: seq<Question>) {
    forall a, b :: 0 <= a < b < |qs| ==> qs[a] != qs[b]
  }

  /** A timer armed for the question of round `i` that fires while another
      round is on does nothing, when no question object appears twice. */
  lemma StaleTimerIsHarmless(s: Session, i: nat)
    requires PairwiseDistinct(s.questions) && i < |s.questions| && s.index != i
    ensures TimerFires(s, s.questions[i]) == Step(s, None)
  {
    if 0 <= s.index < |s.questions| {
      if s.index < i {
        assert s.questions[s.index] != s.questions[i];
      } else {
        assert s.questions[i] != s.questions[s.index];
      }
    }
  }

  /** A timer that fires after its round was closed does nothing. */
  lemma TimerAfterEnd(s: Session, q: Question)
    ensures var closed := EndQuestion(s).session; TimerFires(closed, q) == Step(closed, None)
  {
  }

  /** When the same bank entry was selected twice, the timer of the first
      round closes the second one early. */
  lemma DuplicateQuestionTimer(s: Session, q: Question)
    requires s.questions == [q, q] && s.index == 1 && s.state == QuestionActive
    requires 0 <= q.correctIndex < |q.choices|
    ensures TimerFires(s, s.questions[0]).session.state == QuestionClosed
    ensures TimerFires(s, s.questions[0]).sent.Some?
  {
  }

  predicate DistinctIds(ids: seq<int>) {
    forall a, b :: 0 <= a < b < |ids| ==> ids[a] != ids[b]
  }

  /** Distinct ids select distinct question objects. */
  lemma {:induction false} SelectedDistinct(ids: seq<int>, bank: seq<Question>)
    requires DistinctIds(ids)
    ensures PairwiseDistinct(Selected(ids, bank))
  {
    if ids != [] {
      var rest := Selected(ids[1..], bank);
      assert DistinctIds(ids[1..]) by {
        forall a, b | 0 <= a < b < |ids[1..]| ensures ids[1..][a] != ids[1..][b] {
          assert ids[1..][a] == ids[a + 1] && ids[1..][b] == ids[b + 1];
        }
      }
      SelectedDistinct(ids[1..], bank);
      match FirstWithId(bank, ids[0])
      case Some(q) =>
        assert ids[0] !in ids[1..] by {
          forall k | 0 <= k < |ids[1..]| ensures ids[1..][k] != ids[0] {
            assert ids[1..][k] == ids[k + 1];
          }
        }
        forall b | 0 <= b < |rest| ensures q != rest[b] {
          assert rest[b] in rest;
          assert rest[b].id in ids[1..];
          assert q.id != rest[b].id;
        }
        var r := [q] + rest;
        assert r == Selected(ids, bank);
        forall a, b | 0 <= a < b < |r| ensures r[a] != r[b] {
          if a == 0 {
            assert r[b] == rest[b - 1];
          } else {
            assert r[a] == rest[a - 1] && r[b] == rest[b - 1];
          }
        }
      case None =>
    }
  }

  /** Selecting a bank entry's id twice selects that same object twice. */
  lemma SelectedTwice(bank: seq<Question>, q: Question)
    requires q in bank && forall p :: p in bank && p != q ==> p.id != q.id
    ensures Selected([q.id, q.id], bank) == [q, q]
  {
    var ids := [q.id, q.id];
    assert ids[1..] == [q.id] && ids[1..][1..] == [];
    assert FirstWithId(bank, q.id) == Some(q);
  }

  /** The round-timer guarantee for a selection by distinct ids: a timer
      armed for any round does nothing once another round is on. */
  lemma SelectedStaleTimer(ids: seq<int>, bank: seq<Question>, s: Session, i: nat)
    requires DistinctIds(ids) && s.questions == Selected(ids, bank)
    requires i < |s.questions| && s.index != i
    ensures TimerFires(s, s.questions[i]) == Step(s, None)
  {
    SelectedDistinct(ids, bank);
    StaleTimerIsHarmless(s, i);
  }

  /** Answers are refused outside an active round, and from unknown players,
      without any change. */
  lemma AnswerRefused(s: Session, playerId: Option<string>, choiceText: Option<string>,
                      questionIdText: Option<string>, now: int)
    requires s.state != QuestionActive || (playerId.Some? && playerId.value !in s.players)
    ensures var r := SubmitAnswer(s, playerId, choiceText, questionIdText, now);
      r.session == s && r.sent == None
      && r.reply == Status(if s.state != QuestionActive then 400 else 404)
  {
  }

  /** An accepted answer, sent as decimal text: it becomes the player's
      answer to that question id, replacing any earlier one; the player
      scores exactly when the choice is the correct index of the question on
      screen; nothing else changes, and the hosts get the new count. */
  lemma AnswerAccepted(s: Session, pid: string, qid: int, choice: int, now: int)
    requires s.state == QuestionActive && pid in s.players
    requires IntMin <= qid <= IntMax && IntMin <= choice <= IntMax
    ensures var r := SubmitAnswer(s, Some(pid), Some(IntToString(choice)), Some(IntToString(qid)), now);
      var t := r.session;
      var correct := CurrentQuestion(s).Some? && CurrentQuestion(s).value.correctIndex == choice;
      r.reply == Status(200)
      && t.answers.Keys == s.answers.Keys + {qid}
      && t.answers[qid] == AnswersOf(s, qid)[pid := Answer(pid, qid, choice, now)]
      && (forall k :: k in s.answers && k != qid ==> t.answers[k] == s.answers[k])
      && t.players.Keys == s.players.Keys
      && t.players[pid] == s.players[pid].(score := s.players[pid].score + (if correct then 1 else 0))
      && (forall k :: k in s.players && k != pid ==> t.players[k] == s.players[k])
      && t.state == s.state && t.questions == s.questions && t.index == s.index
      && t.startTime == s.startTime
      && r.sent == Some(AnswerReceived(|t.answers[qid]|, |t.players|))
  {
    assert SubmitAnswer(s, Some(pid), Some(IntToString(choice)), Some(IntToString(qid)), now)
        == RecordAnswer(s, pid, qid, choice, now) by {
      ParseIntRoundTrip(qid);
      ParseIntRoundTrip(choice);
    }
    RecordedAnswer(s, pid, qid, choice, now);
    RecordedScore(s, pid, qid, choice, now);
  }

  /** What recording an accepted answer does to the answers. */
  lemma RecordedAnswer(s: Session, pid: string, qid: int, choice: int, now: int)
    requires pid in s.players
    ensures var r := RecordAnswer(s, pid, qid, choice, now);
      r.reply == Status(200)
      && r.session.answers.Keys == s.answers.Keys + {qid}
      && r.session.answers[qid] == AnswersOf(s, qid)[pid := Answer(pid, qid, choice, now)]
      && (forall k :: k in s.answers && k != qid ==> r.session.answers[k] == s.answers[k])
      && r.session.state == s.state && r.session.questions == s.questions && r.session.index == s.index
      && r.session.startTime == s.startTime
      && r.sent == Some(AnswerReceived(|r.session.answers[qid]|, |r.session.players|))
  {
  }

  /** What recording an accepted answer does to the players. */
  lemma RecordedScore(s: Session, pid: string, qid: int, choice: int, now: int)
    requires pid in s.players
    ensures var t := RecordAnswer(s, pid, qid, choice, now).session;
      var correct := CurrentQuestion(s).Some? && CurrentQuestion(s).value.correctIndex == choice;
      t.players.Keys == s.players.Keys
      && t.players[pid] == s.players[pid].(score := s.players[pid].score + (if correct then 1 else 0))
      && (forall k :: k in s.players && k != pid ==> t.players[k] == s.players[k])
  {
  }

  /** Repeating a correct answer scores again each time. */
  lemma RepeatedCorrectAnswer(s: Session, pid: string, qid: int, now1: int, now2: int)
    requires s.state == QuestionActive && pid in s.players && CurrentQuestion(s).Some?
    requires IntMin <= qid <= IntMax && IntMin <= CurrentQuestion(s).value.correctIndex <= IntMax
    ensures var c := Some(IntToString(CurrentQuestion(s).value.correctIndex));
      var once := SubmitAnswer(s, Some(pid), c, Some(IntToString(qid)), now1).session;
      var twice := SubmitAnswer(once, Some(pid), c, Some(IntToString(qid)), now2).session;
      twice.players[pid].score == s.players[pid].score + 2
  {
    var choice := CurrentQuestion(s).value.correctIndex;
    AnswerAccepted(s, pid, qid, choice, now1);
    var once := SubmitAnswer(s, Some(pid), Some(IntToString(choice)), Some(IntToString(qid)), now1).session;
    AnswerAccepted(once, pid, qid, choice, now2);
  }
}
