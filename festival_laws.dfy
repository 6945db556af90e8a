/** Properties of the server as a whole: what the command handler, the
    round timers, the answer endpoint, the selection endpoint and the
    connection loop do to the registries and to the messages sent. */
module FestivalLaws {
  import opened Wrappers
  import opened JavaText
  import opened QuizModel
  import opened Festival
  import JsonScan
  import QuestionBank
  import FrameCodec
  import QuizLaws

  /** The log only grows at its end. */
  predicate Extends(w: World, r: World) {
    |w.log| <= |r.log| && r.log[..|w.log|] == w.log
  }

  /** Every WebSocket command makes at most one send call: a reply to its
      sender or a broadcast, never both; the sender is the only client that
      may become a host, and no command registers a client. */
  lemma OneSendPerCommand(w: World, id: string, message: string, failing: set<string>, now: int)
    ensures var r := OnMessage(w, id, message, failing, now);
      Extends(w, r) && |r.log| <= |w.log| + 1
      && r.clients <= w.clients && r.hosts <= w.hosts + {id}
  {
    var r := OnMessage(w, id, message, failing, now);
    match JsonScan.FieldValue(message, "type")
    case None =>
    case Some(kind) =>
      var e := Handle(w.session, CommandOf(kind), w.bank, now);
      assert e.reply.Some? ==> e.broadcast.None? by {
        if e.reply.Some? {
          assert CommandOf(kind) in {Register, StartQuiz, Ping};
        }
      }
      ApplySends(w, id, e, failing);
  }

  lemma ApplySends(w: World, id: string, e: Effect, failing: set<string>)
    requires e.reply.Some? ==> e.broadcast.None?
    ensures var r := Apply(w, id, e, failing);
      Extends(w, r) && |r.log| <= |w.log| + 1
      && r.clients <= w.clients && r.hosts <= w.hosts + {id}
  {
    var r := Apply(w, id, e, failing);
    if e.reply.Some? {
      assert |r.log| == |w.log| + 1;
    } else if e.broadcast.Some? {
      assert |r.log| == |w.log| + 1;
    } else {
      assert r.log == w.log;
    }
  }

  /** `host.endQuestion` twice in a row: the second changes nothing, so at
      most one `question.end` is broadcast; one is when a round with a valid
      correct index was on. */
  lemma EndQuestionBroadcastsOnce(w: World, id: string, message: string, failing: set<string>,
                                  now1: int, now2: int)
    requires JsonScan.FieldValue(message, "type") == Some("host.endQuestion")
    ensures var once := OnMessage(w, id, message, failing, now1);
      OnMessage(once, id, message, failing, now2) == once
      && Extends(w, once) && |once.log| <= |w.log| + 1
      && (w.session.state == QuestionActive && CurrentQuestion(w.session).Some?
          && 0 <= CurrentQuestion(w.session).value.correctIndex < |CurrentQuestion(w.session).value.choices|
          ==> |once.log| == |w.log| + 1 && once.log[|w.log|].msg.QuestionEnd?)
  {
    assert CommandOf("host.endQuestion") == EndQuestionCommand;
    var once := OnMessage(w, id, message, failing, now1);
    QuizLaws.EndQuestionTwice(w.session);
    assert once == Publish(w, EndQuestion(w.session), failing) by {
      assert w.timers + Listed(None) == w.timers;
    }
    assert once.timers + Listed(None) == once.timers;
    OneSendPerCommand(w, id, message, failing, now1);
  }

  /** A timer whose question is not the one on screen wakes up without any
      effect beyond leaving the sleeping timers, when no question object
      appears twice in the list. */
  lemma StaleTimerChangesNothing(w: World, k: nat, i: nat, failing: set<string>)
    requires k < |w.timers| && i < |w.session.questions| && w.timers[k] == w.session.questions[i]
    requires QuizLaws.PairwiseDistinct(w.session.questions) && w.session.index != i
    ensures Expired(w, k, failing) == w.(timers := w.timers[..k] + w.timers[k + 1..])
  {
    QuizLaws.StaleTimerIsHarmless(w.session, i);
  }

  /** A timer that wakes up after its round was closed has no effect either. */
  lemma TimerAfterRoundClosed(w: World, k: nat, failing: set<string>)
    requires k < |w.timers| && w.session.state != QuestionActive
    ensures Expired(w, k, failing) == w.(timers := w.timers[..k] + w.timers[k + 1..])
  {
  }

  /** When the same bank entry was selected twice, the timer armed in the
      first of its rounds closes the second round before its time. */
  lemma DuplicateSelectionClosesEarly(w: World, q: Question, failing: set<string>)
    requires w.session.questions == [q, q] && w.session.index == 1 && w.session.state == QuestionActive
    requires 0 <= q.correctIndex < |q.choices|
    requires w.timers == [q]
    ensures Expired(w, 0, failing).session.state == QuestionClosed
    ensures Expired(w, 0, failing).log == w.log + [Sent(QuestionEnd(1, q.correctIndex, q.choices[q.correctIndex], q.explanation), w.clients - failing)]
  {
    QuizLaws.DuplicateQuestionTimer(w.session, q);
  }

  /** An answer outside an active round, or from an unknown player, is
      refused with no change and nothing sent. */
  lemma AnswerRefusedChangesNothing(w: World, body: string, now: int, failing: set<string>)
    requires w.session.state != QuestionActive
      || (JsonScan.FieldValue(body, "playerId").Some?
          && JsonScan.FieldValue(body, "playerId").value !in w.session.players)
    ensures Answered(w, body, now, failing).0 == w
    ensures Answered(w, body, now, failing).1 == Status(if w.session.state != QuestionActive then 400 else 404)
  {
    QuizLaws.AnswerRefused(w.session, JsonScan.FieldValue(body, "playerId"), JsonScan.FieldValue(body, "choice"),
                           JsonScan.FieldValue(body, "questionId"), now);
  }

  /** An accepted answer is announced to the hosts only: one send, which
      reaches the working host sockets. */
  lemma AnswerAcceptedNotifiesHosts(w: World, body: string, now: int, failing: set<string>)
    requires Answered(w, body, now, failing).1 == Status(200)
    ensures var r := Answered(w, body, now, failing).0;
      |r.log| == |w.log| + 1 && r.log[..|w.log|] == w.log
      && r.log[|w.log|].msg.AnswerReceived? && r.log[|w.log|].delivered == w.hosts - failing
  {
  }

  /** The ids a host sends as a JSON array select, in that order, the first
      bank question carrying each of them. */
  lemma SelectionOfIdArray(w: World, ids: seq<nat>)
    requires forall i :: 0 <= i < |ids| ==> ids[i] <= IntMax
    ensures Selection(w, QuestionBank.IdsText(ids)).1 == Status(200)
    ensures Selection(w, QuestionBank.IdsText(ids)).0.session.questions == Selected(ids, w.bank)
  {
    QuestionBank.IdsRoundTrip(ids);
  }

  /** Selecting distinct ids protects every later round from stale timers. */
  lemma DistinctSelectionProtectsRounds(w: World, ids: seq<nat>, k: nat, i: nat, failing: set<string>)
    requires forall j :: 0 <= j < |ids| ==> ids[j] <= IntMax
    requires QuizLaws.DistinctIds(ids)
    requires w.session.questions == Selection(w, QuestionBank.IdsText(ids)).0.session.questions
    requires k < |w.timers| && i < |w.session.questions| && w.timers[k] == w.session.questions[i]
    requires w.session.index != i
    ensures Expired(w, k, failing) == w.(timers := w.timers[..k] + w.timers[k + 1..])
  {
    SelectionOfIdArray(w, ids);
    QuizLaws.SelectedDistinct(ids, w.bank);
    StaleTimerChangesNothing(w, k, i, failing);
  }

  /** The reads before the last one all carried a message. */
  predicate AllMessages(inputs: seq<Incoming>) {
    forall j :: 0 <= j < |inputs| ==> inputs[j].read.Message?
  }

  /** A `null` read unregisters the client from both registries once the
      messages before it are handled. */
  lemma {:induction false} ClosedUnregisters(w: World, id: string, inputs: seq<Incoming>, at: int,
                                             utf8: seq<FrameCodec.byte> -> string, failing: set<string>)
    requires AllMessages(inputs)
    ensures Serve(w, id, inputs + [Incoming(FrameCodec.Closed, at)], utf8, failing)
         == Disconnected(Serve(w, id, inputs, utf8, failing), id)
    decreases |inputs|
  {
    var all := inputs + [Incoming(FrameCodec.Closed, at)];
    if inputs != [] {
      assert all[0] == inputs[0] && all[1..] == inputs[1..] + [Incoming(FrameCodec.Closed, at)];
      var p := inputs[0].read.payload;
      ClosedUnregisters(OnMessage(w, id, utf8(p), failing, inputs[0].at), id, inputs[1..], at, utf8, failing);
    } else {
      assert all[0] == Incoming(FrameCodec.Closed, at);
    }
  }

  /** An exception while reading ends the loop as if the stream had simply
      stopped: the client is not unregistered. */
  lemma {:induction false} FaultKeepsRegistration(w: World, id: string, inputs: seq<Incoming>, at: int,
                                                  utf8: seq<FrameCodec.byte> -> string, failing: set<string>)
    requires AllMessages(inputs)
    ensures Serve(w, id, inputs + [Incoming(FrameCodec.Fault, at)], utf8, failing)
         == Serve(w, id, inputs, utf8, failing)
    decreases |inputs|
  {
    var all := inputs + [Incoming(FrameCodec.Fault, at)];
    if inputs != [] {
      assert all[0] == inputs[0] && all[1..] == inputs[1..] + [Incoming(FrameCodec.Fault, at)];
      var p := inputs[0].read.payload;
      FaultKeepsRegistration(OnMessage(w, id, utf8(p), failing, inputs[0].at), id, inputs[1..], at, utf8, failing);
    } else {
      assert all[0] == Incoming(FrameCodec.Fault, at);
    }
  }

  /** While a connection is served, no other client is registered and only
      its own client may become a host; the log only grows. */
  lemma {:induction false} ServeRegistersNoOne(w: World, id: string, inputs: seq<Incoming>,
                                               utf8: seq<FrameCodec.byte> -> string, failing: set<string>)
    ensures var r := Serve(w, id, inputs, utf8, failing);
      r.clients <= w.clients && r.hosts <= w.hosts + {id} && Extends(w, r)
    decreases |inputs|
  {
    if inputs != [] && inputs[0].read.Message? {
      var p := inputs[0].read.payload;
      var w1 := OnMessage(w, id, utf8(p), failing, inputs[0].at);
      OneSendPerCommand(w, id, utf8(p), failing, inputs[0].at);
      ServeRegistersNoOne(w1, id, inputs[1..], utf8, failing);
      var r := Serve(w1, id, inputs[1..], utf8, failing);
      assert r.log[..|w.log|] == r.log[..|w1.log|][..|w.log|];
    }
  }
}
