/** The quiz session of the festival server as values: its states, the
    messages it broadcasts, and the rules by which host commands, answers
    and round timers change it. The server class applies these rules to its
    session object in place. */
module QuizModel {
  import opened Wrappers
  import opened JavaText

  datatype QuizState = Idle | WaitJoin | QuestionActive | QuestionClosed | Result | End

  /** A bank question. It is an object because the round timer compares
      questions by identity, and one bank entry may be selected twice. */
  class Question {
    const id: int
    const text: string
    const choices: seq<string>
    const correctIndex: int
    const explanation: Option<string>

    constructor (id: int, text: string, choices: seq<string>, correctIndex: int, explanation: Option<string>)
      ensures this.id == id && this.text == text && this.choices == choices
      ensures this.correctIndex == correctIndex && this.explanation == explanation
    {
      this.id := id;
      this.text := text;
      this.choices := choices;
      this.correctIndex := correctIndex;
      this.explanation := explanation;
    }
  }

  datatype Player = Player(id: string, nickname: string, score: int, joinedAt: int)

  datatype Answer = Answer(playerId: string, questionId: int, choice: int, answeredAt: int)

  /** The fields of a QuizSession: `index` is currentQuestionIndex and
      `startTime` questionStartTime. */
  datatype Session = Session(state: QuizState, players: map<string, Player>, questions: seq<Question>,
                             answers: map<int, map<string, Answer>>, index: int, startTime: int)

  /** A fresh session, as `new QuizSession()` builds it. */
  function NewSession(): Session {
    Session(Idle, map[], [], map[], -1, 0)
  }

  /** getCurrentQuestion: the question at the current index, or none when
      the index is outside the list. */
  function CurrentQuestion(s: Session): (r: Option<Question>)
    ensures r.Some? <==> 0 <= s.index < |s.questions|
    ensures r.Some? ==> r.value == s.questions[s.index]
  {
    if 0 <= s.index < |s.questions| then Some(s.questions[s.index]) else None
  }

  /** The messages the server sends over WebSocket, as records; their JSON
      text is not modelled. */
  datatype Msg =
    | Connected(clientId: string, state: QuizState)
    | HostRegistered(playerCount: nat)
    | Error(message: string)
    | QuizStarting
    | WaitingForPlayers
    | QuestionStart(questionId: int, questionNumber: int, totalQuestions: nat,
                    text: string, choices: seq<string>, timeLimit: nat)
    | QuestionEnd(questionId: int, correctIndex: int, correctAnswer: string, explanation: Option<string>)
    | QuizFinish
    | QuizEnded
    | Pong
    | PlayerJoined(count: nat, nickname: string)
    | AnswerReceived(count: nat, total: nat)
    | SessionReset

  /** The seconds a round lasts before its timer closes it. */
  const TimeLimit: nat := 60

  /** A session change together with the one broadcast it makes, if any. */
  datatype Step = Step(session: Session, sent: Option<Msg>)

  /** advanceQuestion at time `now`: the index always moves on; at or past
      the end of the list the quiz finishes and no round opens, otherwise
      the next round opens and is announced with its number and the total. */
  function Advance(s: Session, now: int): (r: Step)
    ensures r.session.index == s.index + 1
    ensures r.session.players == s.players && r.session.answers == s.answers
    ensures r.session.questions == s.questions
    ensures s.index + 1 >= |s.questions| ==>
      r.session.state == Result && r.session.startTime == s.startTime && r.sent == Some(QuizFinish)
    ensures -1 <= s.index && s.index + 1 < |s.questions| ==> (
      r.session.state == QuestionActive && r.session.startTime == now
      && r.sent.Some? && r.sent.value.QuestionStart?
      && r.sent.value.questionId == s.index + 1 && r.sent.value.questionNumber == s.index + 2
      && r.sent.value.totalQuestions == |s.questions|
      && r.sent.value.text == s.questions[s.index + 1].text
      && r.sent.value.choices == s.questions[s.index + 1].choices)
  {
    var i := s.index + 1;
    if i >= |s.questions| then
      Step(s.(index := i, state := Result), Some(QuizFinish))
    else
      var t := s.(index := i, state := QuestionActive, startTime := now);
      match CurrentQuestion(t)
      case None => Step(t, None)  // a negative index: `q.text` throws, nothing is sent
      case Some(q) =>
        Step(t, Some(QuestionStart(i, i + 1, |s.questions|, q.text, q.choices, TimeLimit)))
  }

  /** endCurrentQuestion: only an active round is closed. The broadcast names
      the correct choice; it is lost when the question list no longer holds
      the current question or its correct index is outside its choices, as
      the lookup then throws after the state has changed. */
  function EndQuestion(s: Session): (r: Step)
    ensures s.state != QuestionActive ==> r == Step(s, None)
    ensures s.state == QuestionActive ==> r.session == s.(state := QuestionClosed)
    ensures r.sent.Some? ==> s.state == QuestionActive && CurrentQuestion(s).Some?
    ensures r.sent.Some? ==> (var q := CurrentQuestion(s).value;
      0 <= q.correctIndex < |q.choices|
      && r.sent.value == QuestionEnd(s.index, q.correctIndex, q.choices[q.correctIndex], q.explanation))
  {
    if s.state != QuestionActive then Step(s, None)
    else
      var t := s.(state := QuestionClosed);
      match CurrentQuestion(t)
      case None => Step(t, None)
      case Some(q) =>
        if 0 <= q.correctIndex < |q.choices| then
          Step(t, Some(QuestionEnd(t.index, q.correctIndex, q.choices[q.correctIndex], q.explanation)))
        else Step(t, None)
  }

  /** The auto-end timer armed for question `q`, when it fires: it closes the
      round only while that same question object is active. */
  function TimerFires(s: Session, q: Question): Step {
    if s.state == QuestionActive && CurrentQuestion(s) == Some(q) then EndQuestion(s) else Step(s, None)
  }

  /** The HTTP reply of an endpoint, or an exception escaping its handler. */
  datatype Reply = Status(code: int) | Thrown

  /** The answers of question `qid` so far. */
  function AnswersOf(s: Session, qid: int): map<string, Answer> {
    if qid in s.answers then s.answers[qid] else map[]
  }

  /** The result of an answer submission: the new session, the reply and the
      broadcast to hosts. */
  datatype Submission = Submission(session: Session, reply: Reply, sent: Option<Msg>)

  /** `Integer.parseInt` of an extracted field; a missing field throws too. */
  function ParseField(t: Option<string>): Option<int> {
    if t.None? then None else ParseInt(t.value)
  }

  /** The body of `/api/answer`, given the three fields extracted from the
      request. A missing player id makes the map lookup throw, and a question
      id or choice that does not parse makes parseInt throw. */
  function SubmitAnswer(s: Session, playerId: Option<string>, choiceText: Option<string>,
                        questionIdText: Option<string>, now: int): Submission
  {
    if s.state != QuestionActive then Submission(s, Status(400), None)
    else if playerId.None? then Submission(s, Thrown, None)
    else if playerId.value !in s.players then Submission(s, Status(404), None)
    else
      match (ParseField(questionIdText), ParseField(choiceText))
      case (Some(qid), Some(choice)) => RecordAnswer(s, playerId.value, qid, choice, now)
      case _ => Submission(s, Thrown, None)
  }

  /** Recording an accepted answer: it replaces the player's earlier answer
      to that question id, and a choice equal to the correct index of the
      question now on screen scores a point, whatever question id was sent. */
  function RecordAnswer(s: Session, pid: string, qid: int, choice: int, now: int): Submission
    requires pid in s.players
  {
    var answers := s.answers[qid := AnswersOf(s, qid)[pid := Answer(pid, qid, choice, now)]];
    var q := CurrentQuestion(s);
    var correct := q.Some? && q.value.correctIndex == choice;
    var p := s.players[pid];
    var players := if correct then s.players[pid := p.(score := p.score + 1)] else s.players;
    Submission(s.(answers := answers, players := players), Status(200),
               Some(AnswerReceived(|answers[qid]|, |players|)))
  }

  /** The nickname `/api/join` gives a player: the one sent, or
      "Player" followed by the number the player will have. */
  function JoinNickname(s: Session, nickname: Option<string>): string {
    if nickname.None? || nickname.value == [] then "Player" + IntToString(|s.players| + 1)
    else nickname.value
  }

  /** `/api/join` for a player with generated id `id`, joining at `now`;
      the hosts are told the new player count. */
  function Join(s: Session, nickname: Option<string>, id: string, now: int): (r: Step)
    ensures id in r.session.players && r.session.players[id] == Player(id, JoinNickname(s, nickname), 0, now)
    ensures r.session.players.Keys == s.players.Keys + {id}
    ensures forall k :: k in s.players && k != id ==> r.session.players[k] == s.players[k]
    ensures r.session.state == s.state && r.session.questions == s.questions
    ensures r.session.answers == s.answers && r.session.index == s.index && r.session.startTime == s.startTime
    ensures r.sent == Some(PlayerJoined(|r.session.players|, r.session.players[id].nickname))
  {
    var name := JoinNickname(s, nickname);
    var t := s.(players := s.players[id := Player(id, name, 0, now)]);
    Step(t, Some(PlayerJoined(|t.players|, name)))
  }

  /** The fields of the JSON object `/api/join` answers with: the new
      player's id and nickname and the session state. */
  datatype JoinReply = JoinReply(playerId: string, nickname: string, status: QuizState)

  /** The first bank question with id `id`, as the inner loop of
      `/api/session/questions` finds it. */
  function FirstWithId(bank: seq<Question>, id: int): (r: Option<Question>)
    ensures r.Some? ==> r.value in bank && r.value.id == id
    ensures r.None? <==> forall q :: q in bank ==> q.id != id
    ensures r.Some? ==> exists j :: 0 <= j < |bank| && bank[j] == r.value && forall i :: 0 <= i < j ==> bank[i].id != id
  {
    if bank == [] then None
    else if bank[0].id == id then Some(bank[0])
    else
      var r := FirstWithId(bank[1..], id);
      if r.Some? then
        var j :| 0 <= j < |bank[1..]| && bank[1..][j] == r.value && forall i :: 0 <= i < j ==> bank[1..][i].id != id;
        assert bank[j + 1] == r.value && forall i :: 0 <= i < j + 1 ==> bank[i].id != id;
        r
      else r
  }

  /** The question list `/api/session/questions` selects for `ids`: for each
      id in turn, the first bank question carrying it, if any. */
  function Selected(ids: seq<int>, bank: seq<Question>): (r: seq<Question>)
    ensures |r| <= |ids|
    ensures forall q :: q in r ==> q in bank && q.id in ids
  {
    if ids == [] then []
    else
      var rest := Selected(ids[1..], bank);
      match FirstWithId(bank, ids[0])
      case Some(q) => [q] + rest
      case None => rest
  }

  /** What a host command does. */
  datatype Command =
    | Register | StartQuiz | OpenJoin | NextQuestion | EndQuestionCommand
    | ShowResult | EndQuiz | Ping | Unknown

  /** The `switch` of handleWebSocketMessage on the extracted message type. */
  function CommandOf(kind: string): Command {
    if kind == "host.register" then Register
    else if kind == "host.startQuiz" then StartQuiz
    else if kind == "host.openJoin" then OpenJoin
    else if kind == "host.nextQuestion" then NextQuestion
    else if kind == "host.endQuestion" then EndQuestionCommand
    else if kind == "host.showResult" then ShowResult
    else if kind == "host.endQuiz" then EndQuiz
    else if kind == "ping" then Ping
    else Unknown
  }

  /** The effect of one command: the new session, the reply to the sender,
      the broadcast to everyone, whether the sender becomes a host, and the
      question a newly armed timer waits on. */
  datatype Effect = Effect(session: Session, reply: Option<Msg>, broadcast: Option<Msg>,
                           register: bool, armed: Option<Question>)

  function Quiet(s: Session): Effect {
    Effect(s, None, None, false, None)
  }

  /** The command handler, with `bank` the question bank and `now` the clock. */
  function Handle(s: Session, c: Command, bank: seq<Question>, now: int): (r: Effect)
    ensures r.register <==> c == Register
    ensures c == Unknown ==> r == Quiet(s)
    ensures r.reply.Some? ==> c in {Register, StartQuiz, Ping}
    ensures c == Register ==> r.session == s && r.reply == Some(HostRegistered(|s.players|)) && r.broadcast == None
    ensures c == OpenJoin ==> r.session == s.(state := WaitJoin) && r.broadcast == Some(WaitingForPlayers)
    ensures c == ShowResult ==> r.session == s.(state := Result) && r.broadcast == Some(QuizFinish)
    ensures c == EndQuiz ==> r.session == s.(state := End) && r.broadcast == Some(QuizEnded)
    ensures c == Ping ==> r.session == s && r.reply == Some(Pong) && r.broadcast == None
    ensures c == NextQuestion ==> r.session == Advance(s, now).session && r.broadcast == Advance(s, now).sent
    ensures c == NextQuestion ==>
      (r.armed.Some? <==> r.broadcast.Some? && r.broadcast.value.QuestionStart?)
      && (r.armed.Some? ==> 0 <= r.session.index < |r.session.questions| && r.armed.value == r.session.questions[r.session.index])
    ensures c == EndQuestionCommand ==> r.session == EndQuestion(s).session && r.broadcast == EndQuestion(s).sent
    ensures c != NextQuestion ==> r.armed == None
  {
    match c
    case Register => Effect(s, Some(HostRegistered(|s.players|)), None, true, None)
    case StartQuiz =>
      var t := if s.questions == [] then s.(questions := bank) else s;
      if t.questions == [] then Effect(t, Some(Error("No questions available")), None, false, None)
      else Effect(t.(state := WaitJoin), None, Some(QuizStarting), false, None)
    case OpenJoin => Effect(s.(state := WaitJoin), None, Some(WaitingForPlayers), false, None)
    case NextQuestion =>
      var step := Advance(s, now);
      var armed := if step.sent.Some? && step.sent.value.QuestionStart? then CurrentQuestion(step.session) else None;
      Effect(step.session, None, step.sent, false, armed)
    case EndQuestionCommand =>
      var step := EndQuestion(s);
      Effect(step.session, None, step.sent, false, None)
    case ShowResult => Effect(s.(state := Result), None, Some(QuizFinish), false, None)
    case EndQuiz => Effect(s.(state := End), None, Some(QuizEnded), false, None)
    case Ping => Effect(s, Some(Pong), None, false, None)
    case Unknown => Quiet(s)
  }
}
