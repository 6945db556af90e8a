# Festival quiz server and theme server, modelled in Dafny

This project models the logic of two Java servers for a museum festival.

The quiz server (`FestivalServer.java`) runs a live quiz over WebSocket and HTTP. It covers:
- the WebSocket frame codec and the handshake's accept-token input;
- the quiz session state machine: advancing, ending a round and the round timer;
- player joins, answer ingestion, question selection and the ranking of `/api/result`;
- the client and host registries;
- the hand-written JSON scanners: `extractJsonField`, `extractJsonArray`, `parseStringArray`, `parseIntArray`, `parseQuestions` and `escapeJson`.

The theme server (`ThemeController.java`) covers:
- the current theme and the exhibit search;
- the JSON list of exhibits;
- the request to, and the reply from, the AI quiz generator;
- the list of posted quizzes;
- the API-key file and the exhibit data file.

Modules:
- `Wrappers`: `Option`.
- `JavaText`: the `java.lang.String` and `Integer` operations with Java's semantics: `indexOf`, `replace`, `trim`, `split`, `String.join`, `parseInt` and `toString`.
- `FrameCodec`: `sendWebSocketMessage` and `readWebSocketMessage`. The input stream is a class with a cursor, the payload an `array` unmasked in place.
- `Handshake`: `calculateWebSocketAccept` and the upgrade-request loop.
- `QuizModel`: the session as a value, and its transitions as functions.
- `QuizLaws`: properties of those transitions.
- `Festival`: the server as a class, whose methods update the session object, the registries, the bank and a log of sent messages. Each method is proved against the functions of `QuizModel`.
- `FestivalLaws`: properties of the whole server.
- `Ranking`: the ranking of `/api/result`.
- `JsonScan` and `QuestionBank`: the quiz server's text scanners.
- `HttpQuery`: `query.split(key)[1].split("&")[0]`.
- `JsonLexer`: a small JSON reader, used to state what the JSON text the servers write means.
- `ThemeText`: the theme server's text functions.
- `ThemeServer`: the theme server as a class whose handlers update `currentTheme`, `allExhibits` and `postedQuizzes`.

A Java exception changes what a handler does, so each is modelled as an outcome:
- `Thrown`, `Fault`, `Dropped` or `None` where it escapes;
- the caught value where it is caught.

## Model

Source paths are relative to the repository root.

| member | source | states |
|---|---|---|
| FrameCodec.LengthField | practical_b/src/main/java/jp/ac/u_aizu/quizapp/FestivalServer.java:527-538 | the length part of the header has 1 byte equal to the length below 126, 3 bytes starting with 126 below 65536, otherwise 9 bytes starting with 127 |
| FrameCodec.LongField | practical_b/src/main/java/jp/ac/u_aizu/quizapp/FestivalServer.java:533-537 | the RFC 6455 8-byte length field; its four high bytes are zero for any `int` length (`LongFieldHighBytes`) |
| FrameCodec.LongFieldAsWritten | practical_b/src/main/java/jp/ac/u_aizu/quizapp/FestivalServer.java:535-536 | the field the loop writes, eight bytes of `int` shifts whose counts wrap at 32 |
| FrameCodec.Frame | practical_b/src/main/java/jp/ac/u_aizu/quizapp/FestivalServer.java:525-540 | a server frame starts with 0x81, has the mask bit clear, and ends with the payload unchanged right after its header |
| FrameCodec.EncodeFrame | practical_b/src/main/java/jp/ac/u_aizu/quizapp/FestivalServer.java:520-540 | the frame built byte by byte is `Frame(payload)`, with the 8-byte length written as RFC 6455 section 5.2 defines it |
| FrameCodec.ShortLengthOfFrame | practical_b/src/main/java/jp/ac/u_aizu/quizapp/FestivalServer.java:529-532 | in the middle tier the two length bytes, read big-endian, give the payload length back |
| FrameCodec.LongFieldAsWrittenRepeats | practical_b/src/main/java/jp/ac/u_aizu/quizapp/FestivalServer.java:535-536 | as written, the 8-byte length is the low four bytes of the length written twice |
| FrameCodec.LongFieldLayout | practical_b/src/main/java/jp/ac/u_aizu/quizapp/FestivalServer.java:535-536 | both long fields spelled out byte by byte: as written `b3 b2 b1 b0 b3 b2 b1 b0`, corrected `0 0 0 0 b3 b2 b1 b0` |
| FrameCodec.LongFieldAsWrittenDiffers | practical_b/src/main/java/jp/ac/u_aizu/quizapp/FestivalServer.java:533-537 | for every length from 65536 up to the largest Java array, the field as written is not the RFC field |
| FrameCodec.LongFieldCounterexample | practical_b/src/main/java/jp/ac/u_aizu/quizapp/FestivalServer.java:535-536 | a 70000-byte payload gets `00 01 11 70 00 01 11 70` instead of `00 00 00 00 00 01 11 70` |
| FrameCodec.LongFieldHighBytes | practical_b/src/main/java/jp/ac/u_aizu/quizapp/FestivalServer.java:533-537 | the corrected field of any `int` length has its four high bytes zero |
| FrameCodec.ByteStream.Read | practical_b/src/main/java/jp/ac/u_aizu/quizapp/FestivalServer.java:481-485 | `in.read()` gives the next byte and advances, or -1 at the end of the stream |
| FrameCodec.ByteStream.ReadInto | practical_b/src/main/java/jp/ac/u_aizu/quizapp/FestivalServer.java:506 | a bulk read copies between 1 and `maxRead` of the next bytes into the buffer at the offset, leaves the rest of the buffer alone, and gives -1 at the end of the stream |
| FrameCodec.ReadHeader | practical_b/src/main/java/jp/ac/u_aizu/quizapp/FestivalServer.java:481-501 | the header reads agree with `ReadHeaderOf` on what is left of the stream; the mask key ends up in `maskKey` |
| FrameCodec.ByteStream.constructor | practical_b/src/main/java/jp/ac/u_aizu/quizapp/FestivalServer.java:480 | a stream over the given bytes, positioned at its start |
| FrameCodec.ReadHeaderOf | practical_b/src/main/java/jp/ac/u_aizu/quizapp/FestivalServer.java:481-501 | a header read yields a four-byte key and never consumes more than the stream holds; too short a stream, or the 127 tier, yields none |
| FrameCodec.ReadMaskKey | practical_b/src/main/java/jp/ac/u_aizu/quizapp/FestivalServer.java:497-501 | the key is filled by at most one bulk read; a short read leaves the remaining key bytes zero |
| FrameCodec.ReadPayload | practical_b/src/main/java/jp/ac/u_aizu/quizapp/FestivalServer.java:503-509 | the read loop succeeds exactly when enough bytes remain, and then the payload holds the next bytes of the stream |
| FrameCodec.Unmask | practical_b/src/main/java/jp/ac/u_aizu/quizapp/FestivalServer.java:511-515 | the in-place loop leaves the payload XORed with key byte `i % 4` at each position `i` |
| FrameCodec.ReadWebSocketMessage | practical_b/src/main/java/jp/ac/u_aizu/quizapp/FestivalServer.java:480-518 | the method returns `Decode` of the stream's remaining bytes and consumes exactly the frame |
| FrameCodec.XorInvolution | practical_b/src/main/java/jp/ac/u_aizu/quizapp/FestivalServer.java:513 | XORing a byte twice with the same key byte gives it back |
| FrameCodec.Mask | practical_b/src/main/java/jp/ac/u_aizu/quizapp/FestivalServer.java:511-515 | masking keeps the payload's length, each byte XORed with key byte `i % 4` |
| FrameCodec.MaskInvolution | practical_b/src/main/java/jp/ac/u_aizu/quizapp/FestivalServer.java:511-515 | unmasking with the key that masked a payload gives the payload back |
| FrameCodec.DecodeFrame | practical_b/src/main/java/jp/ac/u_aizu/quizapp/FestivalServer.java:480-518 | an unmasked server frame under 65536 bytes decodes to its payload, whatever follows it |
| FrameCodec.ReadMaskedHeader | practical_b/src/main/java/jp/ac/u_aizu/quizapp/FestivalServer.java:481-501 | the header of a client-masked frame is read whole: mask bit, length, key and header size |
| FrameCodec.DecodeMaskedFrame | practical_b/src/main/java/jp/ac/u_aizu/quizapp/FestivalServer.java:487-517 | the round trip: a server frame masked by a client with any key decodes to the original payload |
| FrameCodec.DecodeLongFrame | practical_b/src/main/java/jp/ac/u_aizu/quizapp/FestivalServer.java:488-495 | any frame whose second byte carries the 127 length indicator, masked or not, is read as null |
| FrameCodec.DecodeOwnLongFrame | practical_b/src/main/java/jp/ac/u_aizu/quizapp/FestivalServer.java:492-495 | the frames the server writes for payloads of 65536 bytes or more are refused by its own reader |
| FrameCodec.DecodeTruncatedFrame | practical_b/src/main/java/jp/ac/u_aizu/quizapp/FestivalServer.java:480-518 | a masked frame cut short yields no message unless its payload is empty: cut inside the 16-bit length it throws, anywhere else the read returns null; an empty payload cut inside its mask key is still read as the empty message, because the key read is not checked |
| FrameCodec.ShortMaskRead | practical_b/src/main/java/jp/ac/u_aizu/quizapp/FestivalServer.java:500 | with one-byte reads the unchecked `in.read(maskKey)` misreads a masked frame: payload `A` with key 1 2 3 4 decodes to the byte 3 |
| Handshake.AcceptInputShape | practical_b/src/main/java/jp/ac/u_aizu/quizapp/FestivalServer.java:474 | the hashed text is the key unchanged followed by the 36-character GUID |
| Handshake.AcceptInputInjective | practical_b/src/main/java/jp/ac/u_aizu/quizapp/FestivalServer.java:473-477 | different keys are hashed from different texts |
| Handshake.ReadUpgradeKey | practical_b/src/main/java/jp/ac/u_aizu/quizapp/FestivalServer.java:300-308 | the header loop agrees with `UpgradeKey`: it stops at the first empty line, and each key line replaces the key |
| Handshake.LastKeyLineWins | practical_b/src/main/java/jp/ac/u_aizu/quizapp/FestivalServer.java:303-308 | the last `Sec-WebSocket-Key:` line before the blank line gives the key, trimmed |
| Handshake.NoKeyLineNoKey | practical_b/src/main/java/jp/ac/u_aizu/quizapp/FestivalServer.java:310-313 | without a key line there is no key, and the socket is closed |
| Handshake.KeyWithoutSpace | practical_b/src/main/java/jp/ac/u_aizu/quizapp/FestivalServer.java:306 | `substring(19)` drops the first key character when no space follows the colon |
| Handshake.BareKeyLineFaults | practical_b/src/main/java/jp/ac/u_aizu/quizapp/FestivalServer.java:306 | a key line with nothing after the colon throws |
| QuizModel.Question.constructor | practical_b/src/main/java/jp/ac/u_aizu/quizapp/FestivalServer.java:784-790 | a question object holds the id, text, choices, correct index and explanation it was given |
| QuizModel.CurrentQuestion | practical_b/src/main/java/jp/ac/u_aizu/quizapp/FestivalServer.java:756-761 | there is a current question exactly when the index is within the list, and it is the question at the index |
| QuizModel.Advance | practical_b/src/main/java/jp/ac/u_aizu/quizapp/FestivalServer.java:411-435 | the index always grows by one. At or past the last question the state is RESULT and `quiz.finish` is sent. Otherwise the round is active and `question.start` carries the index, the index plus one, the total, and the question's text and choices |
| QuizModel.EndQuestion | practical_b/src/main/java/jp/ac/u_aizu/quizapp/FestivalServer.java:451-466 | it does nothing unless a round is active. Then the state becomes QUESTION_CLOSED, and `question.end` carries the correct index and the choice at it |
| QuizModel.Join | practical_b/src/main/java/jp/ac/u_aizu/quizapp/FestivalServer.java:65-82 | the new player's record holds the id, the chosen nickname, score 0 and the join time; every other player, the answers, the state, the questions, the index and the start time are unchanged; the hosts get the new count and nickname |
| QuizLaws.JoinNaming | practical_b/src/main/java/jp/ac/u_aizu/quizapp/FestivalServer.java:68-74 | an absent or empty nickname becomes "Player" followed by the player count plus one, any other is kept; the count grows by one unless the generated id is already taken |
| QuizModel.FirstWithId | practical_b/src/main/java/jp/ac/u_aizu/quizapp/FestivalServer.java:265-270 | the inner loop finds the first bank question with the id, every earlier one carrying another id, or none exactly when no bank question has it |
| QuizModel.Selected | practical_b/src/main/java/jp/ac/u_aizu/quizapp/FestivalServer.java:262-271 | the selection has at most one question per id, each from the bank and carrying one of the ids |
| QuizModel.Handle | practical_b/src/main/java/jp/ac/u_aizu/quizapp/FestivalServer.java:354-409 | only `host.register` registers a host and it replies with the player count; open-join, show-result and end-quiz set WAIT_JOIN, RESULT and END with their broadcast; next-question is `Advance` and arms a timer for the opened question exactly when `question.start` is sent; end-question is `EndQuestion`; ping replies `pong`; an unknown type does nothing |
| QuizLaws.StartQuizUsesBank | practical_b/src/main/java/jp/ac/u_aizu/quizapp/FestivalServer.java:366-377 | with no selection the whole bank is used and a selection is kept; with questions the state becomes WAIT_JOIN and `quiz.starting` goes to everyone; with no questions at all nothing changes and only the sender gets an error |
| QuizLaws.EndQuestionTwice | practical_b/src/main/java/jp/ac/u_aizu/quizapp/FestivalServer.java:451-466 | the second of two ends in a row changes and sends nothing; the first sends when a round with a valid correct index is on |
| QuizLaws.OneQuestionQuiz | practical_b/src/main/java/jp/ac/u_aizu/quizapp/FestivalServer.java:411-417 | with one question, the first advance opens it and the second finishes the quiz without a `question.start` |
| QuizLaws.StaleTimerIsHarmless | practical_b/src/main/java/jp/ac/u_aizu/quizapp/FestivalServer.java:438-444 | with pairwise distinct question objects, a timer of another round does nothing |
| QuizLaws.TimerAfterEnd | practical_b/src/main/java/jp/ac/u_aizu/quizapp/FestivalServer.java:441-443 | a timer that fires after the round was closed does nothing |
| QuizLaws.DuplicateQuestionTimer | practical_b/src/main/java/jp/ac/u_aizu/quizapp/FestivalServer.java:441-443 | when one bank entry was selected twice, the first round's timer closes the second round early |
| QuizLaws.SelectedDistinct | practical_b/src/main/java/jp/ac/u_aizu/quizapp/FestivalServer.java:262-271 | distinct ids select pairwise distinct question objects |
| QuizLaws.SelectedTwice | practical_b/src/main/java/jp/ac/u_aizu/quizapp/FestivalServer.java:264-270 | an id sent twice selects the same object twice |
| QuizLaws.SelectedStaleTimer | practical_b/src/main/java/jp/ac/u_aizu/quizapp/FestivalServer.java:438-444 | after a selection by distinct ids, a timer armed in any other round does nothing |
| QuizLaws.AnswerRefused | practical_b/src/main/java/jp/ac/u_aizu/quizapp/FestivalServer.java:96-105 | outside an active round (400) or from an unknown player (404), the answer changes and sends nothing |
| QuizLaws.AnswerAccepted | practical_b/src/main/java/jp/ac/u_aizu/quizapp/FestivalServer.java:107-127 | an accepted answer replaces that player's answer for the question id, adds one point exactly when the choice is the on-screen question's correct index, leaves the state, the questions, the index and the round's start time unchanged, and tells the hosts the count |
| QuizLaws.RecordedAnswer | practical_b/src/main/java/jp/ac/u_aizu/quizapp/FestivalServer.java:110-127 | recording an answer replies 200, puts the answer under the player in that question id's map (adding the id when new), keeps every other question id's answers, the state, the questions, the index and the start time, and reports that map's size and the number of players |
| QuizLaws.RecordedScore | practical_b/src/main/java/jp/ac/u_aizu/quizapp/FestivalServer.java:115-120 | recording an answer raises that player's score by one exactly when the choice equals the correct index of the question on screen, and leaves every other player as it was |
| QuizLaws.RepeatedCorrectAnswer | practical_b/src/main/java/jp/ac/u_aizu/quizapp/FestivalServer.java:115-120 | submitting the correct choice twice scores twice |
| Festival.LoadedEntries | practical_b/src/main/java/jp/ac/u_aizu/quizapp/FestivalServer.java:568-610 | the bank is never empty after loading: the file's questions, or the five defaults |
| Festival.QuizSession.constructor | practical_b/src/main/java/jp/ac/u_aizu/quizapp/FestivalServer.java:748-754 | a new session is IDLE with no players, questions or answers and index -1 |
| Festival.FestivalServer.constructor | practical_b/src/main/java/jp/ac/u_aizu/quizapp/FestivalServer.java:27-34 | the server starts with a new session, empty registries, an empty bank and nothing sent |
| Festival.FestivalServer.Transmit | practical_b/src/main/java/jp/ac/u_aizu/quizapp/FestivalServer.java:542-549 | a write succeeds unless the socket fails; a failing client leaves both registries and nothing else changes |
| Festival.FestivalServer.Broadcast | practical_b/src/main/java/jp/ac/u_aizu/quizapp/FestivalServer.java:552-562 | the loop over recipients ends in the state `Send` describes: failing ones unregistered, one log record of who received the message |
| Festival.FestivalServer.SendWebSocketMessage | practical_b/src/main/java/jp/ac/u_aizu/quizapp/FestivalServer.java:520-550 | one send to one client, as `ToClient` describes |
| Festival.FestivalServer.BroadcastToAll | practical_b/src/main/java/jp/ac/u_aizu/quizapp/FestivalServer.java:552-556 | a broadcast to every registered client |
| Festival.FestivalServer.BroadcastToHosts | practical_b/src/main/java/jp/ac/u_aizu/quizapp/FestivalServer.java:558-562 | a broadcast to the registered hosts |
| Festival.FestivalServer.AdvanceQuestion | practical_b/src/main/java/jp/ac/u_aizu/quizapp/FestivalServer.java:411-449 | the session and sends follow `Advance`, and the new round's question joins the sleeping timers |
| Festival.FestivalServer.EndCurrentQuestion | practical_b/src/main/java/jp/ac/u_aizu/quizapp/FestivalServer.java:451-467 | the session and broadcast follow `EndQuestion` |
| Festival.FestivalServer.TimerExpires | practical_b/src/main/java/jp/ac/u_aizu/quizapp/FestivalServer.java:438-448 | a waking timer leaves the sleeping ones and ends the round only if its question object is still on screen |
| Festival.FestivalServer.HandleWebSocketMessage | practical_b/src/main/java/jp/ac/u_aizu/quizapp/FestivalServer.java:354-409 | the new state is `OnMessage`: a message without `type` is ignored, otherwise the command's effect is applied |
| Festival.FestivalServer.StartQuizCase | practical_b/src/main/java/jp/ac/u_aizu/quizapp/FestivalServer.java:366-377 | the new state is `Handle` of `host.startQuiz` applied to the old one, so by StartQuizUsesBank the whole bank is used when nothing was selected, and with no questions at all only the sender gets an error |
| Festival.FestivalServer.Join | practical_b/src/main/java/jp/ac/u_aizu/quizapp/FestivalServer.java:65-86 | the player is added, the reply is 200 and carries the new player's id, their nickname (the one sent, or the generated "Player" name) and the session state, and the hosts are told |
| Festival.FestivalServer.SubmitAnswer | practical_b/src/main/java/jp/ac/u_aizu/quizapp/FestivalServer.java:89-131 | the state and reply are `Answered` of the body |
| Festival.FestivalServer.StoreAnswer | practical_b/src/main/java/jp/ac/u_aizu/quizapp/FestivalServer.java:110-127 | the accepted answer is stored and scored as `RecordAnswer` says, and the hosts get the count |
| Festival.FestivalServer.SelectQuestions | practical_b/src/main/java/jp/ac/u_aizu/quizapp/FestivalServer.java:258-276 | the ids are parsed, then the question list becomes the selection, or nothing changes when parsing throws |
| Festival.FestivalServer.FindQuestion | practical_b/src/main/java/jp/ac/u_aizu/quizapp/FestivalServer.java:265-270 | the inner loop returns the first bank question with the id |
| Festival.FestivalServer.LoadQuestionBank | practical_b/src/main/java/jp/ac/u_aizu/quizapp/FestivalServer.java:568-613 | the bank becomes new question objects for the file's entries, or for the defaults; nothing else changes |
| Festival.FestivalServer.Reset | practical_b/src/main/java/jp/ac/u_aizu/quizapp/FestivalServer.java:223-232 | a new session object, the bank reloaded, `session.reset` sent to everyone, reply 200 |
| Festival.FestivalServer.Connect | practical_b/src/main/java/jp/ac/u_aizu/quizapp/FestivalServer.java:326-334 | the client is registered and greeted with its id and the session state |
| Festival.FestivalServer.Disconnect | practical_b/src/main/java/jp/ac/u_aizu/quizapp/FestivalServer.java:345-346 | the client leaves both registries |
| Festival.FestivalServer.HandleWebSocketConnection | practical_b/src/main/java/jp/ac/u_aizu/quizapp/FestivalServer.java:294-352 | the handshake then the read loop, as `Connection` describes |
| Festival.DefaultBank | practical_b/src/main/java/jp/ac/u_aizu/quizapp/FestivalServer.java:584-610 | five new question objects holding the default entries |
| Festival.SelectedAppend | practical_b/src/main/java/jp/ac/u_aizu/quizapp/FestivalServer.java:264-271 | one more id appends that id's first bank question, if there is one |
| FestivalLaws.OneSendPerCommand | practical_b/src/main/java/jp/ac/u_aizu/quizapp/FestivalServer.java:354-409 | a command makes at most one send, never registers a client, and only its sender can become a host |
| FestivalLaws.EndQuestionBroadcastsOnce | practical_b/src/main/java/jp/ac/u_aizu/quizapp/FestivalServer.java:388-390 | `host.endQuestion` twice in a row broadcasts `question.end` at most once, and exactly once when a valid round was on |
| FestivalLaws.StaleTimerChangesNothing | practical_b/src/main/java/jp/ac/u_aizu/quizapp/FestivalServer.java:438-444 | a stale timer only leaves the sleeping timers when no question object is selected twice |
| FestivalLaws.TimerAfterRoundClosed | practical_b/src/main/java/jp/ac/u_aizu/quizapp/FestivalServer.java:441-443 | a timer that wakes after its round closed only leaves the sleeping timers |
| FestivalLaws.DuplicateSelectionClosesEarly | practical_b/src/main/java/jp/ac/u_aizu/quizapp/FestivalServer.java:264-270 | a bank entry selected twice lets the first timer close the second round and broadcast its end |
| FestivalLaws.AnswerRefusedChangesNothing | practical_b/src/main/java/jp/ac/u_aizu/quizapp/FestivalServer.java:96-105 | a refused answer leaves the whole server unchanged and replies 400 or 404 |
| FestivalLaws.AnswerAcceptedNotifiesHosts | practical_b/src/main/java/jp/ac/u_aizu/quizapp/FestivalServer.java:122-127 | an accepted answer makes one send, `answer.received`, to the working host sockets |
| FestivalLaws.SelectionOfIdArray | practical_b/src/main/java/jp/ac/u_aizu/quizapp/FestivalServer.java:258-272 | a JSON array of ids selects, in order, the first bank question of each id |
| FestivalLaws.DistinctSelectionProtectsRounds | practical_b/src/main/java/jp/ac/u_aizu/quizapp/FestivalServer.java:438-444 | after selecting distinct ids, a timer of another round changes nothing |
| FestivalLaws.ClosedUnregisters | practical_b/src/main/java/jp/ac/u_aizu/quizapp/FestivalServer.java:338-346 | a null read ends the loop and removes the client from both registries |
| FestivalLaws.FaultKeepsRegistration | practical_b/src/main/java/jp/ac/u_aizu/quizapp/FestivalServer.java:349-351 | an exception while reading ends the loop without unregistering the client |
| FestivalLaws.ServeRegistersNoOne | practical_b/src/main/java/jp/ac/u_aizu/quizapp/FestivalServer.java:336-346 | serving a connection registers no other client, only its own can become a host, and the log only grows |
| Ranking.SortOrdered | practical_b/src/main/java/jp/ac/u_aizu/quizapp/FestivalServer.java:142-146 | the sorted ranking is ordered by score, highest first, then by earlier join, and is a permutation of the players |
| Ranking.InsertOrdered | practical_b/src/main/java/jp/ac/u_aizu/quizapp/FestivalServer.java:142-146 | inserting a player into an ordered ranking keeps it ordered and adds exactly that player |
| Ranking.Rank | practical_b/src/main/java/jp/ac/u_aizu/quizapp/FestivalServer.java:154 | `indexOf(p) + 1`: the first position of `p` counted from one, or 0 when absent |
| Ranking.Top3 | practical_b/src/main/java/jp/ac/u_aizu/quizapp/FestivalServer.java:163 | the podium has `min(3, n)` entries |
| Ranking.ResultRanks | practical_b/src/main/java/jp/ac/u_aizu/quizapp/FestivalServer.java:142-154 | for the map's values listed once each, the ranking is ordered and holds every player exactly once and no one else. A requested player's rank is their position plus one, with everyone above scoring at least as much and everyone below at most as much |
| Ranking.PodiumIsBest | practical_b/src/main/java/jp/ac/u_aizu/quizapp/FestivalServer.java:162-170 | the podium is the start of the ranking and stands at least as high as everyone else |
| Ranking.EarlierJoinRanksFirst | practical_b/src/main/java/jp/ac/u_aizu/quizapp/FestivalServer.java:143-146 | of two players with equal scores, the earlier joiner ranks first |
| Ranking.RequestedSingleId | practical_b/src/main/java/jp/ac/u_aizu/quizapp/FestivalServer.java:137-140 | `playerId=` followed by an id without `&` asks for that id |
| Ranking.EmptyIdThrows | practical_b/src/main/java/jp/ac/u_aizu/quizapp/FestivalServer.java:138-139 | a query ending in its only `playerId=` makes the handler throw |
| JavaText.IndexOf | practical_b/src/main/java/jp/ac/u_aizu/quizapp/FestivalServer.java:661 | `indexOf` finds the leftmost match at or after the start, or -1 when there is none |
| JavaText.IndexOfChar | practical_b/src/main/java/jp/ac/u_aizu/quizapp/FestivalServer.java:682-683 | the one-character `indexOf` finds the leftmost occurrence, or -1 |
| JavaText.TrimStart | practical_b/src/main/java/jp/ac/u_aizu/quizapp/ThemeController.java:247 | `trim` drops exactly the leading characters up to U+0020 |
| JavaText.ContainsIff | practical_b/src/main/java/jp/ac/u_aizu/quizapp/ThemeController.java:77 | `contains` holds exactly when the text matches somewhere |
| JavaText.NatToString | practical_b/src/main/java/jp/ac/u_aizu/quizapp/FestivalServer.java:424 | `Integer.toString` of a non-negative number is a non-empty run of digits |
| JavaText.Pieces | practical_b/src/main/java/jp/ac/u_aizu/quizapp/ThemeController.java:77 | splitting at a non-empty separator always yields at least one piece |
| JavaText.TrimEnd | practical_b/src/main/java/jp/ac/u_aizu/quizapp/ThemeController.java:247 | `trim` drops exactly the trailing characters up to U+0020 |
| JavaText.ParseInt | practical_b/src/main/java/jp/ac/u_aizu/quizapp/FestivalServer.java:710 | `parseInt` succeeds only within the 32-bit range, and only with a minus sign for a negative value |
| JavaText.ParseIntRoundTrip | practical_b/src/main/java/jp/ac/u_aizu/quizapp/FestivalServer.java:107-108 | `parseInt` reads back what `Integer.toString` writes, for every `int` |
| JavaText.DropTrailingEmpty | practical_b/src/main/java/jp/ac/u_aizu/quizapp/FestivalServer.java:708 | `split` drops exactly the trailing empty strings |
| JavaText.PiecesJoin | practical_b/src/main/java/jp/ac/u_aizu/quizapp/FestivalServer.java:708 | joining the pieces of a text with the separator gives the text back |
| JavaText.JoinPieces | practical_b/src/main/java/jp/ac/u_aizu/quizapp/ThemeController.java:111 | items without the separator character are the pieces of their join |
| JsonScan.EscapeJsonIsPerChar | practical_b/src/main/java/jp/ac/u_aizu/quizapp/FestivalServer.java:716-723 | the replace chain escapes each character on its own, because the backslash is replaced first |
| JsonScan.EscapeJsonRoundTrip | practical_b/src/main/java/jp/ac/u_aizu/quizapp/FestivalServer.java:716-723 | a JSON reader reads the escaped text back as the original |
| JsonScan.EscapeJsonNoLineBreaks | practical_b/src/main/java/jp/ac/u_aizu/quizapp/FestivalServer.java:716-723 | the escaped text has no raw newline, carriage return or tab |
| JsonScan.SkipSpaces | practical_b/src/main/java/jp/ac/u_aizu/quizapp/FestivalServer.java:660 | `\s*` skips exactly the whitespace run |
| JsonScan.FindPattern | practical_b/src/main/java/jp/ac/u_aizu/quizapp/FestivalServer.java:660-661 | the corrected search finds the leftmost `"field" : "` match and no earlier one |
| JsonScan.ClosingQuote | practical_b/src/main/java/jp/ac/u_aizu/quizapp/FestivalServer.java:665-669 | the scan stops at the first quote not preceded by a backslash, or at the end |
| JsonScan.ScanClosingQuote | practical_b/src/main/java/jp/ac/u_aizu/quizapp/FestivalServer.java:665-669 | the loop computes `ClosingQuote` |
| JsonScan.ExtractJsonField | practical_b/src/main/java/jp/ac/u_aizu/quizapp/FestivalServer.java:659-676 | the method computes the corrected extraction `FieldValue` of the Findings row: the unescaped value, or none when the field or its closing quote is missing |
| JsonScan.FieldValueAsWrittenMissesPlainJson | practical_b/src/main/java/jp/ac/u_aizu/quizapp/FestivalServer.java:660-662 | as written, no field is found in any text without a backslash |
| JsonScan.ArrayPatternMissesPlainJson | practical_b/src/main/java/jp/ac/u_aizu/quizapp/FestivalServer.java:679-681 | as written, no array pattern is found in any text without a backslash |
| JsonScan.FieldValueFindsField | practical_b/src/main/java/jp/ac/u_aizu/quizapp/FestivalServer.java:659-676 | the corrected extractor reads `"field" : "value"` with any spacing around the colon |
| JsonScan.FieldExtractionCounterexample | practical_b/src/main/java/jp/ac/u_aizu/quizapp/FestivalServer.java:660-661 | on `{"type":"ping"}` the as-written extractor finds nothing and the corrected one finds `ping` |
| QuestionBank.ArrayTextAsWrittenMissesPlainJson | practical_b/src/main/java/jp/ac/u_aizu/quizapp/FestivalServer.java:678-681 | as written, `extractJsonArray` finds nothing in JSON without backslashes |
| QuestionBank.ArrayTextShape | practical_b/src/main/java/jp/ac/u_aizu/quizapp/FestivalServer.java:682-685 | an array text runs from `[` to the first `]` after it |
| QuestionBank.BracketTextShape | practical_b/src/main/java/jp/ac/u_aizu/quizapp/FestivalServer.java:682-685 | the text cut from the first `[` at or after a position runs to the first `]` after it and holds no `]` in between |
| QuestionBank.ItemAt | practical_b/src/main/java/jp/ac/u_aizu/quizapp/FestivalServer.java:691-700 | each round of the outer loop moves forward and stays within the text |
| QuestionBank.ParseStringArray | practical_b/src/main/java/jp/ac/u_aizu/quizapp/FestivalServer.java:688-703 | the two nested loops compute `StringItems` |
| QuestionBank.StringArrayRoundTrip | practical_b/src/main/java/jp/ac/u_aizu/quizapp/FestivalServer.java:688-703 | a JSON string array of plain items is read back item for item |
| QuestionBank.KeepDigitsAndCommas | practical_b/src/main/java/jp/ac/u_aizu/quizapp/FestivalServer.java:707 | only digits and commas are left |
| QuestionBank.ParseIntArray | practical_b/src/main/java/jp/ac/u_aizu/quizapp/FestivalServer.java:705-714 | the loop computes `ParsedIds`, or none when `parseInt` throws |
| QuestionBank.ParsedIdsNonNegative | practical_b/src/main/java/jp/ac/u_aizu/quizapp/FestivalServer.java:707-710 | no parsed id is negative |
| QuestionBank.NegativeIdLosesSign | practical_b/src/main/java/jp/ac/u_aizu/quizapp/FestivalServer.java:707 | `[-3]` is read as the id 3 |
| QuestionBank.IdsRoundTrip | practical_b/src/main/java/jp/ac/u_aizu/quizapp/FestivalServer.java:705-714 | a JSON array of `int` ids is read back exactly |
| QuestionBank.AnswerIndex | practical_b/src/main/java/jp/ac/u_aizu/quizapp/FestivalServer.java:634-642 | the correct index is the first choice equal to the answer, else 0 |
| QuestionBank.ChoiceIndex | practical_b/src/main/java/jp/ac/u_aizu/quizapp/FestivalServer.java:636-641 | the search loop computes `AnswerIndex` |
| QuestionBank.ContentOf | practical_b/src/main/java/jp/ac/u_aizu/quizapp/FestivalServer.java:632-643 | a question needs a text and a choices array, and its correct index is a valid choice whenever there are choices |
| QuestionBank.ObjectContent | practical_b/src/main/java/jp/ac/u_aizu/quizapp/FestivalServer.java:624-633 | the content read from an object keeps its correct index in range |
| QuestionBank.NextObject | practical_b/src/main/java/jp/ac/u_aizu/quizapp/FestivalServer.java:620-622 | the next object runs from a `{` to the first `}` after it |
| QuestionBank.ScanObject | practical_b/src/main/java/jp/ac/u_aizu/quizapp/FestivalServer.java:620-622 | the search computes `NextObject` |
| QuestionBank.ExtractText | practical_b/src/main/java/jp/ac/u_aizu/quizapp/FestivalServer.java:625-626 | the text is `question`, or `text` when that is missing |
| QuestionBank.BuildQuestion | practical_b/src/main/java/jp/ac/u_aizu/quizapp/FestivalServer.java:632-643 | a new question object is built exactly when there is a content, and it holds that content |
| QuestionBank.ParseObject | practical_b/src/main/java/jp/ac/u_aizu/quizapp/FestivalServer.java:624-644 | one loop body: a new question object exactly when the object has a text and choices |
| QuestionBank.ParseQuestions | practical_b/src/main/java/jp/ac/u_aizu/quizapp/FestivalServer.java:615-649 | the loop builds one new question object per entry of `Entries(json)` |
| QuestionBank.NumberIds | practical_b/src/main/java/jp/ac/u_aizu/quizapp/FestivalServer.java:643 | ids run 100, 101, ... in order |
| QuestionBank.Candidates | practical_b/src/main/java/jp/ac/u_aizu/quizapp/FestivalServer.java:620-644 | one possible question per object, in order |
| QuestionBank.NumberAnswers | practical_b/src/main/java/jp/ac/u_aizu/quizapp/FestivalServer.java:634-643 | every entry's correct index is a valid choice when there are choices |
| QuestionBank.NumberCount | practical_b/src/main/java/jp/ac/u_aizu/quizapp/FestivalServer.java:632-644 | there are as many entries as objects with a text and choices |
| QuestionBank.ParsedQuestionsNumbered | practical_b/src/main/java/jp/ac/u_aizu/quizapp/FestivalServer.java:615-649 | the quiz file's questions are numbered from 100 in order, one per usable object, each with a valid correct index |
| HttpQuery.SingleParam | practical_b/src/main/java/jp/ac/u_aizu/quizapp/ThemeController.java:77 | `key` + value, with the key only at the start and no `&`, gives the value |
| HttpQuery.KeyAtEndThrows | practical_b/src/main/java/jp/ac/u_aizu/quizapp/ThemeController.java:77 | a query whose only key ends it makes `[1]` throw |
| ThemeText.SearchIsSubsequence | practical_b/src/main/java/jp/ac/u_aizu/quizapp/ThemeController.java:184-189 | the result is the exhibits the filter accepts, at increasing positions of the full list |
| ThemeText.SearchMembership | practical_b/src/main/java/jp/ac/u_aizu/quizapp/ThemeController.java:184-189 | an exhibit is listed exactly when its era matches and its theme contains the current one. With the theme `未設定`, exactly when its era matches |
| ThemeText.ConvertToJson | practical_b/src/main/java/jp/ac/u_aizu/quizapp/ThemeController.java:191-202 | the loop builds `ExhibitsJson`: `[`, the objects with a comma after all but the last, `]` |
| ThemeText.ExhibitsJsonShape | practical_b/src/main/java/jp/ac/u_aizu/quizapp/ThemeController.java:191-202 | read by a JSON reader, n exhibits give n objects and n-1 separating commas in balanced text; the empty list, exactly, gives `[]` |
| ThemeText.FieldsWritten | practical_b/src/main/java/jp/ac/u_aizu/quizapp/ThemeController.java:195-197 | the description has no newline, every quote in name and description is escaped, and the escapes read back |
| ThemeText.QuoteEscapeRoundTrip | practical_b/src/main/java/jp/ac/u_aizu/quizapp/ThemeController.java:196 | undoing the quote escape gives the name back |
| ThemeText.BackslashNameBreaksArray | practical_b/src/main/java/jp/ac/u_aizu/quizapp/ThemeController.java:196 | a name that is a lone backslash leaves a JSON reader inside a string at the end of the list |
| ThemeText.EscapeJsonIsPerChar | practical_b/src/main/java/jp/ac/u_aizu/quizapp/ThemeController.java:218 | the two-step replace chain escapes each character on its own |
| ThemeText.EscapeJsonSafe | practical_b/src/main/java/jp/ac/u_aizu/quizapp/ThemeController.java:218 | the output has no raw newline, and every quote is preceded by a backslash |
| ThemeText.EscapeJsonReadBack | practical_b/src/main/java/jp/ac/u_aizu/quizapp/ThemeController.java:209 | a prompt without backslashes reads back from the request body exactly |
| ThemeText.EscapeJsonConflates | practical_b/src/main/java/jp/ac/u_aizu/quizapp/ThemeController.java:218 | a backslash followed by `n` and a newline escape to the same text, read back as a newline |
| ThemeText.EscapeEachAgrees | practical_b/src/main/java/jp/ac/u_aizu/quizapp/ThemeController.java:218 | without backslash, carriage return or tab, this escape equals the quiz server's |
| ThemeText.EscapeKeepsApart | practical_b/src/main/java/jp/ac/u_aizu/quizapp/FestivalServer.java:716-723 | the quiz server's escape keeps those two texts apart |
| ThemeText.ParseContentFromRawJson | practical_b/src/main/java/jp/ac/u_aizu/quizapp/ThemeController.java:219-234 | the loop over quotes computes `ContentOf` |
| ThemeText.FindContentEnd | practical_b/src/main/java/jp/ac/u_aizu/quizapp/ThemeController.java:225-231 | the loop stops at the first quote after the marker not preceded by a backslash, and yields -1 (which makes `substring` throw) when no such quote follows |
| ThemeText.NoMarkerNoContent | practical_b/src/main/java/jp/ac/u_aizu/quizapp/ThemeController.java:221-223 | without the marker the reply is `{}` |
| ThemeText.ContentOfLayout | practical_b/src/main/java/jp/ac/u_aizu/quizapp/ThemeController.java:221-232 | the text between the marker and the next quote comes back unchanged when it has no quote or backslash |
| ThemeText.UnclosedContent | practical_b/src/main/java/jp/ac/u_aizu/quizapp/ThemeController.java:226-233 | with no closing quote the caught exception gives `{}` |
| ThemeText.EscapedBackslashBeforeQuote | practical_b/src/main/java/jp/ac/u_aizu/quizapp/ThemeController.java:229 | a content ending in an escaped backslash is not closed by the quote after it |
| ThemeText.KeyLine | practical_b/src/main/java/jp/ac/u_aizu/quizapp/ThemeController.java:246-250 | a key line's key is its text after the first `=`, trimmed, unquoted |
| ThemeText.LoadApiKey | practical_b/src/main/java/jp/ac/u_aizu/quizapp/ThemeController.java:237-256 | no file gives no key; otherwise the loop computes `KeyOf` of the lines |
| ThemeText.KeyOfFirstMatch | practical_b/src/main/java/jp/ac/u_aizu/quizapp/ThemeController.java:245-252 | the first line with the prefix decides, and later lines are ignored |
| ThemeText.TrimBlanks | practical_b/src/main/java/jp/ac/u_aizu/quizapp/ThemeController.java:247 | blanks around a visible text are trimmed away |
| ThemeText.QuotedKeyRead | practical_b/src/main/java/jp/ac/u_aizu/quizapp/ThemeController.java:247-251 | a quoted key is read without its quotes |
| ThemeText.PlainKeyRead | practical_b/src/main/java/jp/ac/u_aizu/quizapp/ThemeController.java:247-251 | an unquoted key is read as written |
| ThemeText.NoKeyLine | practical_b/src/main/java/jp/ac/u_aizu/quizapp/ThemeController.java:245-255 | without a key line there is no key |
| ThemeText.LoneQuoteKeyFails | practical_b/src/main/java/jp/ac/u_aizu/quizapp/ThemeController.java:248-249 | a key that is a lone quote makes `substring(1, 0)` throw |
| ThemeText.NextBrace | practical_b/src/main/java/jp/ac/u_aizu/quizapp/ThemeController.java:138-141 | the scan stops at the first brace, or at the end |
| ThemeText.ObjectBodiesOfArray | practical_b/src/main/java/jp/ac/u_aizu/quizapp/ThemeController.java:138-142 | the matches of `\{([^{}]*)\}` in an array of brace-free objects are their bodies, in order |
| ThemeText.ExhibitOfFields | practical_b/src/main/java/jp/ac/u_aizu/quizapp/ThemeController.java:152-159 | an object becomes an exhibit exactly when its name is present and not empty; missing fields become empty strings |
| ThemeText.LoadedExhibitsNamed | practical_b/src/main/java/jp/ac/u_aizu/quizapp/ThemeController.java:141-160 | every loaded exhibit has a name and comes from one of the objects |
| ThemeServer.ThemeController.constructor | practical_b/src/main/java/jp/ac/u_aizu/quizapp/ThemeController.java:28-37 | the server starts with the theme `未設定`, no exhibits, no quizzes and the key given |
| ThemeServer.ThemeController.LoadJsonData | practical_b/src/main/java/jp/ac/u_aizu/quizapp/ThemeController.java:123-167 | the exhibits loaded from the file are appended in file order; theme and quizzes do not change |
| ThemeServer.ThemeController.CurrentTheme | practical_b/src/main/java/jp/ac/u_aizu/quizapp/ThemeController.java:57-60 | GET answers 200 with the theme; anything else answers 405 |
| ThemeServer.ThemeController.SaveTheme | practical_b/src/main/java/jp/ac/u_aizu/quizapp/ThemeController.java:63-71 | a non-empty body becomes the theme (200); an empty body gets 400, other methods 405, both with no change |
| ThemeServer.ThemeController.Search | practical_b/src/main/java/jp/ac/u_aizu/quizapp/ThemeController.java:74-82 | GET answers with the JSON list of the filtered exhibits for the era in the query; a throwing query parse answers nothing |
| ThemeServer.ThemeController.Generate | practical_b/src/main/java/jp/ac/u_aizu/quizapp/ThemeController.java:85-96 | without a key, or when the call fails, the reply is 500. Otherwise the request body carries the escaped prompt for the theme and the tool, and the reply is 200 with the content of the AI reply |
| ThemeServer.ThemeController.PostQuiz | practical_b/src/main/java/jp/ac/u_aizu/quizapp/ThemeController.java:99-106 | POST appends the body to the posted quizzes |
| ThemeServer.ThemeController.ListQuizzes | practical_b/src/main/java/jp/ac/u_aizu/quizapp/ThemeController.java:109-114 | GET answers with the posted quizzes joined by commas between brackets |
| ThemeServer.Start | practical_b/src/main/java/jp/ac/u_aizu/quizapp/ThemeController.java:39-51 | the server fails to start exactly when reading the key throws or a key is shorter than the `substring(0, 5)` of the start-up message; a started server holds that key, the theme `未設定`, the loaded exhibits and no quizzes |
| ThemeServer.EraOfSingleParam | practical_b/src/main/java/jp/ac/u_aizu/quizapp/ThemeController.java:77 | `era=` + a value without `&` filters by the decoded value |
| ThemeServer.EmptyEraDropped | practical_b/src/main/java/jp/ac/u_aizu/quizapp/ThemeController.java:77 | a query ending in its only `era=` leaves the search unanswered |
| ThemeServer.NoEraParam | practical_b/src/main/java/jp/ac/u_aizu/quizapp/ThemeController.java:77 | without `era=` the search filters by the empty era |
| ThemeServer.QuizListReadBack | practical_b/src/main/java/jp/ac/u_aizu/quizapp/ThemeController.java:111 | the list is bracketed, and its inside split at commas gives the quizzes back in posting order |
| ThemeServer.StartWithQuotedKey | practical_b/src/main/java/jp/ac/u_aizu/quizapp/ThemeController.java:47-48 | a quoted key of five or more characters starts the server with that key; a shorter one stops it |
| ThemeServer.LoneQuoteStopsStart | practical_b/src/main/java/jp/ac/u_aizu/quizapp/ThemeController.java:28 | a lone quote as the key stops the server from starting |
| ThemeServer.StartWithoutKey | practical_b/src/main/java/jp/ac/u_aizu/quizapp/ThemeController.java:47-50 | with no key line or no file, the server starts without a key |
| ThemeServer.LoadedArray | practical_b/src/main/java/jp/ac/u_aizu/quizapp/ThemeController.java:138-160 | an array of brace-free objects loads the named exhibits, in order |

## Left out

- Sockets, `ServerSocket.accept`, the per-connection threads, `HttpServer` wiring and `synchronized`: the model is sequential. A send is recorded in a log, and which sockets fail is a parameter (`failing`).
- The iteration order of the `ConcurrentHashMap` registries: a broadcast goes to a set of ids.
- `Thread.sleep` and the timer thread: a timer is an explicit wake-up event, `TimerExpires`.
- SHA-1, Base64 and UTF-8 encoding and decoding: these are parameters (`Handshake.AcceptToken`, and `utf8` in `Festival.Serve`).
- `UUID.randomUUID`, `generatePlayerId` and `System.currentTimeMillis`: the ids and times are parameters.
- The exception when the 101 handshake reply cannot be written is not modelled.
- The JSON text of the WebSocket messages and of `/api/result`: messages are the `Msg` datatype, and the result is `ResultView`.
- `/api/session/status` and `/api/questions` only render JSON, and are not modelled.
- The 405 branches of the quiz server's handlers are not modelled: each handler method models its GET or POST branch.
- The theme server's HTTP method is reduced to `Verb`: GET, POST or anything else.
- File reading in `loadQuestionBank`, `loadJsonData` and `loadApiKey`: the file's content is a parameter, `None` when it is missing or unreadable.
- Static file handlers, `sendJson`, `sendResponse`, `readBody` and `readRequestBody`: these are I/O.
- `extractJsonValue` (`ThemeController.java:170-182`) uses a look-behind regular expression. It is the `field` lookup parameter of `LoadJsonData`.
- `URLDecoder.decode` is the `decode` parameter of `Search`; None stands for its exception.
- `callOpenAI`'s network call: its reply is the `reply` parameter of `Generate`. The URL and the headers of the request are not modelled, only its body.
- Java `int` overflow of `player.score++` and of the comparator's `b.score - a.score`: scores are unbounded integers compared exactly.
- FrameCodec.ByteStream.ReadInto: every bulk read returns the smaller of the request, a fixed `maxRead` and what is left. A real stream may return different amounts on each call.
- ThemeText.ExhibitsJsonShape: proved only for names and descriptions without backslashes. With a backslash the output is not valid JSON (`BackslashNameBreaksArray`).
- ThemeText.EscapeJsonReadBack: proved only for prompts without backslashes. `EscapeJsonConflates` shows what goes wrong otherwise.
- ThemeText.ContentOfLayout: proved only for content without quotes or backslashes. The replace chain for escapes inside the content is modelled, but its read-back is not proved.
- JsonScan.EscapeJsonRoundTrip: excludes control characters other than newline, carriage return and tab, which the source copies raw.
- QuestionBank.StringArrayRoundTrip: proved only for items without quotes or backslashes.
- ThemeServer.QuizListReadBack: proved only for quizzes without commas, because a quiz is arbitrary posted text.
- FrameCodec.DecodeMaskedFrame: proved for payloads under 65536 bytes and streams that deliver at least four bytes per bulk read. `ShortMaskRead` shows a shorter read.
- HttpQuery.SingleParam: proved for a query holding one parameter.
- JavaText.ParseInt: accepts only the ASCII digits 0-9, while `Integer.parseInt` accepts any Unicode decimal digit through `Character.digit`. A choice sent as a full-width digit such as `３` is an error in the model but a number in the source. The id arrays of `/api/session/questions` are not affected, since `replaceAll("[^0-9,]", "")` keeps only ASCII digits first.
- Festival.FestivalServer.Join: the reply is the record `JoinReply` of its three fields, not its JSON text. The source writes the nickname into that text unescaped, so a nickname holding a quote yields malformed JSON. The model does not show this.
- Festival.OnMessage, Festival.Joined, Festival.Answered and QuestionBank.ObjectContent use the corrected field extraction (`FieldValue`, and `ArrayText` for arrays), not the literal `indexOf` search the source performs. The consequences of the code as written are listed in the Findings row.
- Java strings are sequences of UTF-16 code units while a Dafny `string` holds Unicode scalar values, so `length`, `substring(19)` and `substring(0, 5)` count differently for characters outside the Basic Multilingual Plane.

## Findings

| source | as written | input that shows it | evidently intended | confidence | as-written member | corrected member |
|---|---|---|---|---|---|---|
| practical_b/src/main/java/jp/ac/u_aizu/quizapp/FestivalServer.java:660-661 | the pattern `"field"\s*:\s*"` is written as a regular expression but searched with `String.indexOf`, which matches it literally | `{"type":"ping"}`: no field is found, so no WebSocket command is dispatched (line 356); likewise `/api/join` always names the player "Player" and a number (lines 68-70), `/api/answer` during an active round throws a NullPointerException at `players.get(null)` (line 101), and `parseQuestions` never finds a question text or choices (lines 625-632), so the bank is always the five defaults | find `"field"`, optional whitespace, a colon, optional whitespace and a quote | not executed | JsonScan.FieldExtractionCounterexample | JsonScan.FieldValueFindsField |
| practical_b/src/main/java/jp/ac/u_aizu/quizapp/FestivalServer.java:535-536 | `payload.length >> (8 * i)` on an `int` uses only the low five bits of the shift count, so the 8-byte length repeats the low four bytes | a 70000-byte payload gets length bytes `00 01 11 70 00 01 11 70` | the 64-bit big-endian length of RFC 6455 section 5.2, `00 00 00 00 00 01 11 70` | not executed | FrameCodec.LongFieldCounterexample | FrameCodec.LongFieldHighBytes |
