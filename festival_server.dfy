/** The festival server's shared state and its handlers: the current quiz
    session object, the two WebSocket registries (`clients` and
    `hostClients`), the question bank, and the WebSocket messages sent.
    Socket writes are not performed: each handler is told which client ids
    have sockets whose writes throw (`failing`), and every send call is
    recorded in a log together with the ids that received it. */
module Festival {
  import opened Wrappers
  import opened JavaText
  import opened QuizModel
  import JsonScan
  import QuestionBank
  import FrameCodec
  import Handshake

  /** One call of sendWebSocketMessage, broadcastToAll or broadcastToHosts:
      the message, and the ids of the clients whose socket took it. */
  datatype Sent = Sent(msg: Msg, delivered: set<string>)

  /** The server's state as a value. `clients` and `hosts` are the key sets
      of the two registries (each maps a client id to that client);
      `timers` are the questions whose auto-end timers are still asleep. */
  datatype World = World(session: Session, clients: set<string>, hosts: set<string>,
                         bank: seq<Question>, log: seq<Sent>, timers: seq<Question>)

  /** Sending `msg` to each id of `to`, one after the other: a write to a
      socket in `failing` throws, and that id is removed from both
      registries; the others receive the message. */
  function Send(w: World, msg: Msg, to: set<string>, failing: set<string>): World {
    var lost := to * failing;
    w.(clients := w.clients - lost, hosts := w.hosts - lost, log := w.log + [Sent(msg, to - failing)])
  }

  function ToAll(w: World, msg: Msg, failing: set<string>): World {
    Send(w, msg, w.clients, failing)
  }

  function ToHosts(w: World, msg: Msg, failing: set<string>): World {
    Send(w, msg, w.hosts, failing)
  }

  function ToClient(w: World, id: string, msg: Msg, failing: set<string>): World {
    Send(w, msg, {id}, failing)
  }

  /** A session step whose message goes to every client. */
  function Publish(w: World, st: Step, failing: set<string>): World {
    var w1 := w.(session := st.session);
    if st.sent.Some? then ToAll(w1, st.sent.value, failing) else w1
  }

  /** A session step whose message goes to the hosts. */
  function Notify(w: World, st: Step, failing: set<string>): World {
    var w1 := w.(session := st.session);
    if st.sent.Some? then ToHosts(w1, st.sent.value, failing) else w1
  }

  function Listed(q: Option<Question>): seq<Question> {
    if q.Some? then [q.value] else []
  }

  /** The part of a command's effect that does not involve its sender. */
  function Effected(w: World, e: Effect, failing: set<string>): World {
    Publish(w.(timers := w.timers + Listed(e.armed)), Step(e.session, e.broadcast), failing)
  }

  /** A command from client `id`: `host.register` first puts the sender in
      the host registry; then the reply, then the broadcast. */
  function Apply(w: World, id: string, e: Effect, failing: set<string>): World {
    var w1 := if e.register then w.(hosts := w.hosts + {id}) else w;
    var w2 := if e.reply.Some? then ToClient(w1, id, e.reply.value, failing) else w1;
    Effected(w2, e, failing)
  }

  /** handleWebSocketMessage: a text message without a `type` field is
      ignored; otherwise the command it names is carried out. */
  function OnMessage(w: World, id: string, message: string, failing: set<string>, now: int): World {
    match JsonScan.FieldValue(message, "type")
    case None => w
    case Some(kind) => Apply(w, id, Handle(w.session, CommandOf(kind), w.bank, now), failing)
  }

  /** The auto-end timer `k` wakes up: it is gone from the sleeping timers,
      and it closes the round only when its question is still on screen. */
  function Expired(w: World, k: nat, failing: set<string>): World
    requires k < |w.timers|
  {
    Publish(w.(timers := w.timers[..k] + w.timers[k + 1..]), TimerFires(w.session, w.timers[k]), failing)
  }

  /** `/api/join` with request body `body`, for the generated id `id`. */
  function Joined(w: World, body: string, id: string, now: int, failing: set<string>): World {
    Notify(w, Join(w.session, JsonScan.FieldValue(body, "nickname"), id, now), failing)
  }

  /** `/api/answer` with request body `body`: the new state and the reply. */
  function Answered(w: World, body: string, now: int, failing: set<string>): (World, Reply) {
    var sub := SubmitAnswer(w.session, JsonScan.FieldValue(body, "playerId"),
                            JsonScan.FieldValue(body, "choice"), JsonScan.FieldValue(body, "questionId"), now);
    (Notify(w, Step(sub.session, sub.sent), failing), sub.reply)
  }

  /** `/api/session/questions` with request body `body`: parseIntArray
      throws before anything changes, or the session's question list
      becomes the selection. */
  function Selection(w: World, body: string): (World, Reply) {
    match QuestionBank.ParsedIds(body)
    case None => (w, Thrown)
    case Some(ids) => (w.(session := w.session.(questions := Selected(ids, w.bank))), Status(200))
  }

  /** A client is registered after a successful handshake and greeted with
      its id and the session state. */
  function Greeted(w: World, id: string, failing: set<string>): World {
    ToClient(w.(clients := w.clients + {id}), id, QuizModel.Connected(id, w.session.state), failing)
  }

  function Disconnected(w: World, id: string): World {
    w.(clients := w.clients - {id}, hosts := w.hosts - {id})
  }

  /** One result of readWebSocketMessage and the clock reading when it is handled. */
  datatype Incoming = Incoming(read: FrameCodec.ReadResult, at: int)

  /** The read loop of a connection: messages are handled in turn; a
      `null` read ends the loop and unregisters the client; an exception
      escapes to the outer catch, which leaves both registries as they are.
      `utf8` decodes a payload into the message text. */
  function Serve(w: World, id: string, inputs: seq<Incoming>, utf8: seq<FrameCodec.byte> -> string,
                 failing: set<string>): World
    decreases |inputs|
  {
    if inputs == [] then w
    else match inputs[0].read
      case Closed => Disconnected(w, id)
      case Fault => w
      case Message(p, _) => Serve(OnMessage(w, id, utf8(p), failing, inputs[0].at), id, inputs[1..], utf8, failing)
  }

  /** handleWebSocketConnection for the upgrade request `lines`: without a
      key the socket is closed and nothing is registered. */
  function Connection(w: World, lines: seq<string>, id: string, inputs: seq<Incoming>,
                      utf8: seq<FrameCodec.byte> -> string, failing: set<string>): World
  {
    if Handshake.UpgradeKey(lines).Key? then Serve(Greeted(w, id, failing), id, inputs, utf8, failing) else w
  }

  /** The entries of the five questions loadQuestionBank adds when the
      quiz file yields none. */
  const DefaultEntries: seq<QuestionBank.Entry> := [
    QuestionBank.Entry(1, "縄文時代の特徴的な土器の模様は何と呼ばれますか？",
                       ["縄目模様", "弥生模様", "古墳模様", "飛鳥模様"], 0,
                       Some("縄文土器の名前の由来は、縄を転がして付けた模様です。")),
    QuestionBank.Entry(2, "打製石器の主な用途は何ですか？",
                       ["狩猟", "農耕", "儀式", "装飾"], 0,
                       Some("打製石器は主に動物を狩るために使われました。")),
    QuestionBank.Entry(3, "弥生時代に大陸から伝わった重要な技術は何ですか？",
                       ["稲作", "製鉄", "製紙", "印刷"], 0,
                       Some("弥生時代には稲作技術が朝鮮半島から伝わりました。")),
    QuestionBank.Entry(4, "古墳時代の埴輪の主な役割は何ですか？",
                       ["副葬品", "日用品", "貨幣", "武器"], 0,
                       Some("埴輪は古墳に置かれた副葬品でした。")),
    QuestionBank.Entry(5, "会津地方で有名な伝統工芸品は何ですか？",
                       ["会津漆器", "有田焼", "南部鉄器", "西陣織"], 0,
                       Some("会津は漆器の産地として有名です。"))
  ]

  /** The entries the bank holds after loading the quiz file `file` (None
      when it is absent or cannot be read). */
  function LoadedEntries(file: Option<string>): (r: seq<QuestionBank.Entry>)
    ensures r != []
  {
    if file.Some? && QuestionBank.Entries(file.value) != [] then QuestionBank.Entries(file.value)
    else DefaultEntries
  }

  /** The fields of a QuizSession object. */
  class QuizSession {
    var state: QuizState
    var players: map<string, Player>
    var questions: seq<Question>
    var answers: map<int, map<string, Answer>>
    var index: int
    var startTime: int

    function Snapshot(): Session
      reads this
    {
      Session(state, players, questions, answers, index, startTime)
    }

    constructor ()
      ensures Snapshot() == NewSession()
    {
      state := Idle;
      players := map[];
      questions := [];
      answers := map[];
      index := -1;
      startTime := 0;
    }
  }

  /** The server's static fields. */
  class FestivalServer {
    var session: QuizSession
    var clients: set<string>
    var hosts: set<string>
    var bank: seq<Question>
    var log: seq<Sent>
    var timers: seq<Question>

    function State(): World
      reads this, session
    {
      World(session.Snapshot(), clients, hosts, bank, log, timers)
    }

    constructor ()
      ensures fresh(session)
      ensures State() == World(NewSession(), {}, {}, [], [], [])
    {
      session := new QuizSession();
      clients := {};
      hosts := {};
      bank := [];
      log := [];
      timers := [];
    }

    /** The write of sendWebSocketMessage: a throwing socket removes its
        client from both registries. */
    method Transmit(id: string, failing: set<string>) returns (ok: bool)
      modifies this
      ensures ok <==> id !in failing
      ensures clients == old(clients) - ({id} * failing) && hosts == old(hosts) - ({id} * failing)
      ensures session == old(session) && bank == old(bank) && log == old(log) && timers == old(timers)
    {
      if id in failing {
        clients := clients - {id};
        hosts := hosts - {id};
        return false;
      }
      return true;
    }

    /** The loop of broadcastToAll and broadcastToHosts over the recipients
        `to`, then one log record. */
    method Broadcast(msg: Msg, to: set<string>, failing: set<string>)
      modifies this
      ensures session == old(session)
      ensures State() == Send(old(State()), msg, to, failing)
    {
      var pending := to;
      var delivered := {};
      while pending != {}
        invariant pending <= to
        invariant delivered == (to - pending) - failing
        invariant clients == old(clients) - ((to - pending) * failing)
        invariant hosts == old(hosts) - ((to - pending) * failing)
        invariant session == old(session) && bank == old(bank) && log == old(log) && timers == old(timers)
        decreases pending
      {
        var id :| id in pending;
        var ok := Transmit(id, failing);
        if ok {
          delivered := delivered + {id};
        }
        pending := pending - {id};
      }
      assert to - pending == to;
      log := log + [Sent(msg, delivered)];
    }

    method SendWebSocketMessage(id: string, msg: Msg, failing: set<string>)
      modifies this
      ensures session == old(session)
      ensures State() == ToClient(old(State()), id, msg, failing)
    {
      var ok := Transmit(id, failing);
      assert (if ok then {id} else {}) == {id} - failing;
      log := log + [Sent(msg, if ok then {id} else {})];
    }

    method BroadcastToAll(msg: Msg, failing: set<string>)
      modifies this
      ensures session == old(session)
      ensures State() == ToAll(old(State()), msg, failing)
    {
      Broadcast(msg, clients, failing);
    }

    method BroadcastToHosts(msg: Msg, failing: set<string>)
      modifies this
      ensures session == old(session)
      ensures State() == ToHosts(old(State()), msg, failing)
    {
      Broadcast(msg, hosts, failing);
    }

    /** advanceQuestion; the auto-end timer it starts joins the sleeping ones. */
    method AdvanceQuestion(now: int, failing: set<string>)
      modifies this, session
      ensures session == old(session)
      ensures State() == Effected(old(State()), Handle(old(State()).session, NextQuestion, old(bank), now), failing)
    {
      session.index := session.index + 1;
      if session.index >= |session.questions| {
        session.state := Result;
        BroadcastToAll(QuizFinish, failing);
        return;
      }
      session.state := QuestionActive;
      session.startTime := now;
      if session.index < 0 {
        return;  // getCurrentQuestion is null and `q.text` throws
      }
      var q := session.questions[session.index];
      BroadcastToAll(QuestionStart(session.index, session.index + 1, |session.questions|, q.text, q.choices, TimeLimit), failing);
      timers := timers + [q];
    }

    /** endCurrentQuestion. The lookups of the current question and of its
        correct choice throw after the state has changed. */
    method EndCurrentQuestion(failing: set<string>)
      modifies this, session
      ensures session == old(session)
      ensures State() == Publish(old(State()), EndQuestion(old(State()).session), failing)
    {
      if session.state != QuestionActive {
        return;
      }
      session.state := QuestionClosed;
      if !(0 <= session.index < |session.questions|) {
        return;
      }
      var q := session.questions[session.index];
      if !(0 <= q.correctIndex < |q.choices|) {
        return;
      }
      BroadcastToAll(QuestionEnd(session.index, q.correctIndex, q.choices[q.correctIndex], q.explanation), failing);
    }

    /** The timer thread of sleeping timer `k` wakes up. */
    method TimerExpires(k: nat, failing: set<string>)
      requires k < |timers|
      modifies this, session
      ensures session == old(session)
      ensures State() == Expired(old(State()), k, failing)
    {
      var q := timers[k];
      timers := timers[..k] + timers[k + 1..];
      if session.state == QuestionActive && 0 <= session.index < |session.questions|
         && session.questions[session.index] == q {
        EndCurrentQuestion(failing);
      }
    }

    /** handleWebSocketMessage for a text message from client `id`. */
    method HandleWebSocketMessage(id: string, message: string, failing: set<string>, now: int)
      modifies this, session
      ensures session == old(session)
      ensures State() == OnMessage(old(State()), id, message, failing, now)
    {
      var kind := JsonScan.ExtractJsonField(message, "type");
      if kind.None? {
        return;
      }
      ghost var w := State();
      match CommandOf(kind.value)
      case Register =>
        hosts := hosts + {id};
        SendWebSocketMessage(id, HostRegistered(|session.players|), failing);
      case StartQuiz =>
        StartQuizCase(id, failing);
      case OpenJoin =>
        session.state := WaitJoin;
        BroadcastToAll(WaitingForPlayers, failing);
      case NextQuestion =>
        AdvanceQuestion(now, failing);
      case EndQuestionCommand =>
        EndCurrentQuestion(failing);
      case ShowResult =>
        session.state := Result;
        BroadcastToAll(QuizFinish, failing);
      case EndQuiz =>
        session.state := End;
        BroadcastToAll(QuizEnded, failing);
      case Ping =>
        SendWebSocketMessage(id, Pong, failing);
      case Unknown =>
    }

    /** The `host.startQuiz` case: the whole bank when no question was selected. */
    method StartQuizCase(id: string, failing: set<string>)
      modifies this, session
      ensures session == old(session)
      ensures State() == Apply(old(State()), id, Handle(old(State()).session, QuizModel.StartQuiz, old(bank), 0), failing)
    {
      if session.questions == [] {
        session.questions := bank;
      }
      if session.questions == [] {
        SendWebSocketMessage(id, Error("No questions available"), failing);
        return;
      }
      session.state := WaitJoin;
      BroadcastToAll(QuizStarting, failing);
    }

    /** `/api/join`; `id` is the generated player id and `now` the clock. */
    method Join(body: string, id: string, now: int, failing: set<string>) returns (reply: Reply, answer: JoinReply)
      modifies this, session
      ensures session == old(session)
      ensures State() == Joined(old(State()), body, id, now, failing) && reply == Status(200)
      ensures answer == JoinReply(id, State().session.players[id].nickname, old(State()).session.state)
      ensures answer.nickname == JoinNickname(old(State()).session, JsonScan.FieldValue(body, "nickname"))
    {
      var nickname := JsonScan.ExtractJsonField(body, "nickname");
      var name := if nickname.None? || nickname.value == [] then "Player" + IntToString(|session.players| + 1)
                  else nickname.value;
      session.players := session.players[id := Player(id, name, 0, now)];
      reply := Status(200);
      answer := JoinReply(id, name, session.state);
      BroadcastToHosts(PlayerJoined(|session.players|, name), failing);
    }

    /** `/api/answer`. */
    method SubmitAnswer(body: string, now: int, failing: set<string>) returns (reply: Reply)
      modifies this, session
      ensures session == old(session)
      ensures (State(), reply) == Answered(old(State()), body, now, failing)
    {
      var playerId := JsonScan.ExtractJsonField(body, "playerId");
      var choiceText := JsonScan.ExtractJsonField(body, "choice");
      var questionIdText := JsonScan.ExtractJsonField(body, "questionId");
      if session.state != QuestionActive {
        return Status(400);
      }
      if playerId.None? {
        return Thrown;  // ConcurrentHashMap.get(null)
      }
      var pid := playerId.value;
      if pid !in session.players {
        return Status(404);
      }
      var questionId := ParseField(questionIdText);
      var choice := ParseField(choiceText);
      if questionId.None? || choice.None? {
        return Thrown;
      }
      reply := Status(200);
      StoreAnswer(pid, questionId.value, choice.value, now, failing);
    }

    /** The accepted answer is stored, replacing the player's earlier one
        to that question id; a choice equal to the correct index of the
        question on screen scores; the hosts get the new count. */
    method StoreAnswer(pid: string, qid: int, choice: int, now: int, failing: set<string>)
      requires pid in session.players
      modifies this, session
      ensures session == old(session)
      ensures var sub := RecordAnswer(old(State()).session, pid, qid, choice, now);
        State() == Notify(old(State()), Step(sub.session, sub.sent), failing)
    {
      var forQuestion := if qid in session.answers then session.answers[qid] else map[];
      session.answers := session.answers[qid := forQuestion[pid := Answer(pid, qid, choice, now)]];
      var current := CurrentQuestion(session.Snapshot());
      if current.Some? && current.value.correctIndex == choice {
        var p := session.players[pid];
        session.players := session.players[pid := p.(score := p.score + 1)];
      }
      BroadcastToHosts(AnswerReceived(|session.answers[qid]|, |session.players|), failing);
    }

    /** `/api/session/questions`: for each id, the first bank question with it. */
    method SelectQuestions(body: string) returns (reply: Reply)
      modifies session
      ensures (State(), reply) == Selection(old(State()), body)
    {
      var ids := QuestionBank.ParseIntArray(body);
      if ids.None? {
        return Thrown;
      }
      session.questions := [];
      for i := 0 to |ids.value|
        invariant session.questions == Selected(ids.value[..i], bank)
        invariant session.Snapshot() == old(session.Snapshot()).(questions := session.questions)
      {
        var found := FindQuestion(ids.value[i]);
        if found.Some? {
          session.questions := session.questions + [found.value];
        }
        SelectedStep(ids.value, i, bank);
      }
      assert ids.value[..|ids.value|] == ids.value;
      reply := Status(200);
    }

    /** The inner loop of `/api/session/questions`: the first bank question
        with id `id`. */
    method FindQuestion(id: int) returns (r: Option<Question>)
      ensures r == FirstWithId(bank, id)
    {
      var j := 0;
      while j < |bank|
        invariant j <= |bank|
        invariant FirstWithId(bank, id) == FirstWithId(bank[j..], id)
        decreases |bank| - j
      {
        if bank[j].id == id {
          return Some(bank[j]);
        }
        assert bank[j..] == [bank[j]] + bank[j + 1..];
        j := j + 1;
      }
      return None;
    }

    /** loadQuestionBank, given the quiz file's content. */
    method LoadQuestionBank(file: Option<string>)
      modifies this
      ensures session == old(session) && clients == old(clients) && hosts == old(hosts)
      ensures log == old(log) && timers == old(timers)
      ensures QuestionBank.Built(bank, LoadedEntries(file))
      ensures forall i :: 0 <= i < |bank| ==> fresh(bank[i])
    {
      bank := [];
      if file.Some? {
        var loaded := QuestionBank.ParseQuestions(file.value);
        bank := bank + loaded;
      }
      if bank == [] {
        bank := DefaultBank();
      }
    }

    /** `/api/session/reset`: a new session object, the bank reloaded, and
        everyone told. */
    method Reset(file: Option<string>, failing: set<string>) returns (reply: Reply)
      modifies this
      ensures fresh(session) && reply == Status(200)
      ensures QuestionBank.Built(bank, LoadedEntries(file))
      ensures State() == ToAll(old(State()).(session := NewSession(), bank := bank), SessionReset, failing)
    {
      session := new QuizSession();
      LoadQuestionBank(file);
      BroadcastToAll(SessionReset, failing);
      reply := Status(200);
    }

    /** The registration and greeting after a successful handshake. */
    method Connect(id: string, failing: set<string>)
      modifies this
      ensures session == old(session)
      ensures State() == Greeted(old(State()), id, failing)
    {
      clients := clients + {id};
      SendWebSocketMessage(id, QuizModel.Connected(id, session.state), failing);
    }

    /** The removals after the read loop ends. */
    method Disconnect(id: string)
      modifies this
      ensures session == old(session)
      ensures State() == Disconnected(old(State()), id)
    {
      clients := clients - {id};
      hosts := hosts - {id};
    }

    /** handleWebSocketConnection for client `id`: the handshake over the
        request `lines`, then the read loop over the results `inputs` of
        readWebSocketMessage. */
    method HandleWebSocketConnection(lines: seq<string>, id: string, inputs: seq<Incoming>,
                                     utf8: seq<FrameCodec.byte> -> string, failing: set<string>)
      modifies this, session
      ensures session == old(session)
      ensures State() == Connection(old(State()), lines, id, inputs, utf8, failing)
    {
      var key := Handshake.ReadUpgradeKey(lines);
      if !key.Key? {
        return;
      }
      Connect(id, failing);
      var i := 0;
      while i < |inputs|
        invariant i <= |inputs| && session == old(session)
        invariant Serve(State(), id, inputs[i..], utf8, failing) == Connection(old(State()), lines, id, inputs, utf8, failing)
        decreases |inputs| - i
      {
        match inputs[i].read
        case Closed =>
          Disconnect(id);
          return;
        case Fault =>
          return;
        case Message(p, _) =>
          HandleWebSocketMessage(id, utf8(p), failing, inputs[i].at);
        i := i + 1;
      }
    }
  }

  /** The five default questions, as new objects. */
  method DefaultBank() returns (bank: seq<Question>)
    ensures QuestionBank.Built(bank, DefaultEntries)
    ensures forall i :: 0 <= i < |bank| ==> fresh(bank[i])
  {
    bank := [];
    for i := 0 to |DefaultEntries|
      invariant QuestionBank.Built(bank, DefaultEntries[..i])
      invariant forall j :: 0 <= j < |bank| ==> fresh(bank[j])
    {
      var e := DefaultEntries[i];
      var q := new Question(e.id, e.text, e.choices, e.correctIndex, e.explanation);
      QuestionBank.BuiltAppend(bank, DefaultEntries[..i], q, e);
      assert DefaultEntries[..i + 1] == DefaultEntries[..i] + [e];
      bank := bank + [q];
    }
    assert DefaultEntries[..|DefaultEntries|] == DefaultEntries;
  }

  /** Selecting one more id appends that id's question, if the bank has one. */
  lemma {:induction false} SelectedAppend(ids: seq<int>, id: int, bank: seq<Question>)
    ensures Selected(ids + [id], bank) == Selected(ids, bank) + Listed(FirstWithId(bank, id))
    decreases |ids|
  {
    if ids == [] {
      assert [id][1..] == [];
    } else {
      assert (ids + [id])[1..] == ids[1..] + [id];
      SelectedAppend(ids[1..], id, bank);
    }
  }

  lemma SelectedStep(ids: seq<int>, i: nat, bank: seq<Question>)
    requires i < |ids|
    ensures Selected(ids[..i + 1], bank) == Selected(ids[..i], bank) + Listed(FirstWithId(bank, ids[i]))
  {
    assert ids[..i + 1] == ids[..i] + [ids[i]];
    SelectedAppend(ids[..i], ids[i], bank);
  }
}
