# STRIVEE core, modelled in Dafny

STRIVEE is a learning companion: a React front end (chat with an AI assistant and a chatbot,
a daily check-in, tasks with experience points, levels, streaks and badges, a notepad and a
team chat) backed by a small Express server that relays OpenAI completions to the browser as a
server-sent event stream. This project models the core of that system and proves what it
promises:

- **The two stream re-chunkers.** Policy A (`backend/assistant.js`) sends the buffered text
  once it reaches 50 UTF-16 code units or ends a sentence, after cleaning up its white space, and
  never repeats the text it sent last. Policy B (`backend/langchain.js`) sends once 5
  code units or a punctuation mark have gathered, and stamps every frame with the
  conversation's title. Both are modelled as a fold over the upstream deltas (`Run`) and as
  the `for await` loop writing into an Express-like `Response` class, and the two are proved
  equal (`assistant_stream.dfy`, `chatbot_stream.dfy`, `http.dfy`).
- **The two routes** of `backend/server.js` (`server.dfy`), including their error paths.
- **The client splitter** of `src/services/api.ts` (`client.dfy`). It splits the bytes read
  at line breaks, keeps the last piece and hands each `data: ` line that parses to `onChunk`.
  It is proved independent of where the reads cut the stream. The end-to-end lemmas
  (`integration.dfy`) connect each route's body to what the client delivers. They rest on a
  model of `JSON.stringify`/`JSON.parse` for flat objects with a proved round trip
  (`json.dfy`).
- **The page handlers**:
  - the chatbot page (`chatbot_page.dfy`: a `Page` class with `SendMessage`, streaming,
    conversation creation and deletion);
  - the assistant panel (`assistant_chat.dfy`);
  - the daily check-in form and its score (`daily_checkin.dfy`);
  - tasks: level, streak, badges, completion, notes and the check-in form (`tasks.dfy`);
  - the notepad: tags, filter, sort and the form (`notepad.dfy`);
  - the team page (`team.dfy`).

  `text.dfy` holds the JavaScript string operations they use (`trim`, `split`, `join`,
  `includes`, `toLowerCase` on ASCII, and `length` and `substring` counted in UTF-16 code
  units). `wrappers.dfy` holds `Option`.

Dates are whole day numbers, and "now", "today" and `Date.now()` ids are parameters. The
OpenAI completions are parameters too: a sequence of deltas plus failure flags, and a function
for the title call.

## Model

| member | source | states |
|---|---|---|
| Http.Frame | backend/assistant.js:72 | an event-stream frame is `data: ` + the JSON text + a blank line |
| Http.Response.Write | backend/server.js:118 | `res.write` appends one chunk to an open response and changes nothing else |
| Http.Response.SendJson | backend/server.js:41-48 | `res.status().json()` sends the JSON as the whole body and ends the response, or does nothing once headers went out |
| Http.Response.SetHeader | backend/server.js:78-80 | a header is appended before anything is written |
| Http.Response.End | backend/assistant.js:92 | `res.end()` ends the response and keeps its body |
| AssistantStream.CollapseSpaces | backend/assistant.js:67-68 | empty exactly when the input is; a leading white-space character becomes one space, any other is kept |
| AssistantStream.CollapseKeepsText | backend/assistant.js:67-68 | collapsing white space changes nothing else: the other characters stay, in order |
| AssistantStream.SpaceSentences | backend/assistant.js:69 | empty exactly when the input is, and its first character is kept |
| AssistantStream.SpaceSentencesKeepsText | backend/assistant.js:69 | re-spacing after sentence ends changes nothing but white space |
| AssistantStream.Clean | backend/assistant.js:67-70 | the clean-up ends with `trim`: no white space at either end |
| AssistantStream.CleanKeepsText | backend/assistant.js:67-70 | the whole clean-up changes nothing but white space |
| AssistantStream.CleanIsClean | backend/assistant.js:67-70 | the clean-up chain always yields clean text: single spaces, a space after each sentence end |
| AssistantStream.CleanIdempotent | backend/assistant.js:67-70 | cleaning twice is cleaning once |
| AssistantStream.ShouldFlush | backend/assistant.js:65 | a send is never empty nor equal to the last send; a new buffer of 50 code units or more is always sent |
| AssistantStream.Step | backend/assistant.js:59-78 | an empty delta changes nothing; one delta makes at most one send |
| AssistantStream.Run | backend/assistant.js:59-79 | never more sends than deltas |
| AssistantStream.Events | backend/assistant.js:59-91 | one content event per send, then `done`, last |
| AssistantStream.EndsSentenceMatches | backend/assistant.js:65 | the sentence-end test holds exactly when a `.`, `!` or `?` is followed only by white space |
| AssistantStream.Rechunk | backend/assistant.js:59-79 | the loop ends in the state of the `Run` fold and writes one cleaned frame per send |
| AssistantStream.Finish | backend/assistant.js:82-92 | the remainder is sent unless empty or equal to the last send, then `done`, then the response ends |
| AssistantStream.HandleStream | backend/assistant.js:55-93 | the body gains exactly the frames of `Events(deltas)` and the response ends |
| AssistantStream.RunReachable | backend/assistant.js:59-79 | every reachable state: sends non-empty, due, never equal to the send before, buffer not yet due |
| AssistantStream.RunConservesText | backend/assistant.js:60-74 | the sends followed by the buffer spell out the deltas, with no text lost or repeated |
| AssistantStream.SentTextsSpellDeltas | backend/assistant.js:55-93 | the raw texts sent spell out the deltas, except a final buffer equal to the last send, which is dropped |
| AssistantStream.SentTextsAreDue | backend/assistant.js:65 | every send but the last has 50 UTF-16 code units or ends a sentence |
| AssistantStream.SentTextsNoRepeat | backend/assistant.js:65-73 | no send is empty and no two consecutive sends are equal |
| AssistantStream.EventsShape | backend/assistant.js:72-91 | content events of clean text (single spaces, a space after each sentence end), then exactly one `done`, last |
| Integration.ChunksKeepText | src/components/AiAssistantChat.tsx:37-45 | when each event's text equals its raw text up to white space, so does the text the panel collects |
| Integration.ContentEventsKeepText | backend/assistant.js:67-72 | the content events of the sends, collected by the panel, spell out the sends up to white space |
| Integration.EventsKeepText | backend/assistant.js:55-93 | the text the panel shows is the deltas' text up to white space, except a final buffer equal to the last send, which is dropped |
| AssistantStream.RunSameSuffix | backend/assistant.js:59-79 | the loop remembers nothing of past deltas but its state: two histories reaching the same state stay together under any further deltas |
| AssistantStream.EmptyDeltasIgnored | backend/assistant.js:60-61 | a delta without content changes nothing, wherever it stands among the others |
| AssistantStream.RepeatedFinalSentenceDropped | backend/assistant.js:82-89 | `["Hi.", "Hi."]` sends `Hi.` only once |
| ChatbotStream.TitleFor | backend/langchain.js:23-43 | the title is trimmed, and is null or text unless the call throws |
| ChatbotStream.TitleOnlyWhenNew | backend/langchain.js:26-43 | a title is produced iff the conversation is new, has a message and the call succeeds; otherwise `null` |
| ChatbotStream.TitleFromFirstMessage | backend/langchain.js:36 | the title depends only on the first message's text |
| ChatbotStream.Rechunk | backend/langchain.js:78-92 | the loop ends in the state of the `Run` fold and writes one titled frame per send |
| ChatbotStream.Finish | backend/langchain.js:95-100 | a non-empty remainder is sent, then `{done, title}`, then the response ends |
| ChatbotStream.HandleStream | backend/langchain.js:74-101 | the body gains exactly the frames of `Events(deltas, title)` and the response ends |
| ChatbotStream.ShouldFlush | backend/langchain.js:85 | a buffer held back has fewer than 5 code units |
| ChatbotStream.Step | backend/langchain.js:78-92 | a delta without content changes nothing; one delta makes at most one send |
| ChatbotStream.Run | backend/langchain.js:78-92 | never more sends than deltas |
| ChatbotStream.Events | backend/langchain.js:74-100 | one content event per send, then `{done, title}`, last |
| ChatbotStream.RunReachable | backend/langchain.js:78-92 | buffer under 5 code units and without punctuation; sends non-empty and due; sends + buffer = text received |
| ChatbotStream.FlushTestsBuffer | backend/langchain.js:85 | testing the delta for punctuation equals testing the whole buffer in every reachable state |
| ChatbotStream.RunFullContent | backend/langchain.js:81 | `fullContent` is all the text received |
| ChatbotStream.SentTextsSpellDeltas | backend/langchain.js:74-101 | the sends spell out the deltas and `fullContent` |
| ChatbotStream.SentTextsAreDue | backend/langchain.js:85 | no send is empty; every send but the last has 5 UTF-16 code units or punctuation |
| ChatbotStream.EventsShape | backend/langchain.js:86-99 | non-empty content events then one `done`, all carrying the same title |
| ChatbotStream.RunSameSuffix | backend/langchain.js:78-92 | the loop remembers nothing of past deltas but its state: two histories reaching the same state stay together under any further deltas |
| ChatbotStream.EmptyDeltasIgnored | backend/langchain.js:79-80 | a delta without content changes nothing, wherever it stands among the others |
| ChatbotStream.ShortDeltasGathered | backend/langchain.js:85-87 | a first delta under 5 code units without punctuation is held and sent together with the next once they reach 5, as `["He", "llo"]` sends `Hello` |
| ChatbotStream.AstralCharactersCountTwice | backend/langchain.js:85 | three emoji already make 5 code units: `["🎉🎉🎉", "ab"]` sends the emoji, then `ab` |
| Server.AssistantRoute | backend/server.js:24-49 | the response is the assistant reply for the completion (message object or 500 error object) |
| Server.AssistantReplyIsOneObject | backend/server.js:41-48 | the reply is one JSON text without a line break: status 200 iff the completion succeeded, and it parses back to the message or the error |
| Server.SetEventStreamHeaders | backend/server.js:78-80 | the three event-stream headers are set in order, with nothing written |
| Server.ChatbotRoute | backend/server.js:52-137 | the response is the chatbot reply for the title call and the upstream stream |
| Server.ChatbotErrorBeforeFirstFrame | backend/server.js:133-136 | status 500 with the error object iff the title, the stream opening or the stream fails before the first frame |
| Server.ChatbotOpenAfterLateFailure | backend/server.js:107-136 | with the process surviving the `catch`'s own throw, the response is left open iff the stream throws after a frame went out |
| Server.ChatbotFramesAfterHeaders | backend/server.js:78-132 | on 200 the headers come first, every frame carries the title, only the last is `done`, and it is `done` iff the response ended |
| Server.AssistantStreamRoute | backend/assistant.js:55-93 | the assistant route served as an event stream through `handleStream` (the corrected route) |
| Client.LinesEvents | src/services/api.ts:52-61 | at most one object per finished line |
| Client.LinesEventsAppend | src/services/api.ts:52-61 | the objects of two runs of lines are those of each run, in order |
| Client.DispatchLines | src/services/api.ts:52-61 | the loop over finished lines hands their objects to `onChunk` in order |
| Client.ReadEvents | src/services/api.ts:44-62 | what reaches `onChunk` depends only on the concatenated text received, not on how reads cut it |
| Client.ReadStep | src/services/api.ts:48-50 | one read finishes the lines of the kept piece followed by the new text |
| Client.SendMessageToAssistant | src/services/api.ts:20-63 | fails iff the status is not ok, then delivers nothing; otherwise delivers every finished parsed line |
| Client.SendMessageToChatbot | src/services/api.ts:65-114 | the same, with the error rethrown |
| Client.PartialLineHeldBack | src/services/api.ts:49-50 | an unfinished last line adds nothing until its line break arrives |
| Client.FrameLine | src/services/api.ts:53-56 | a server frame is one `data: ` line that parses to its object, then a blank line |
| Client.FramesDelivered | src/services/api.ts:44-62 | an event stream of objects is read back as exactly those objects |
| Client.StreamDelivered | src/services/api.ts:44-62 | however the frames are cut into reads, every object arrives, in order |
| Client.JsonBodyDeliversNothing | src/services/api.ts:48-60 | a body of one JSON text without a line break delivers nothing |
| Integration.AssistantJsonDeliversNothing | backend/server.js:41-44 | the client receives nothing from the assistant route as written, whatever the model says |
| Integration.AssistantAnswerLost | backend/server.js:41-44 | concretely: a 200 reply of `Hi.` delivers no object |
| Integration.AssistantStreamDelivered | backend/assistant.js:55-93 | served as an event stream, the client receives exactly the re-chunker's events, ending with `done` |
| Integration.ChatbotDelivered | backend/server.js:78-132 | the chatbot frames reach the client as written, each with the title |
| Json.Stringify | backend/assistant.js:72 | the JSON text of an object starts with `{` and ends with `}`; StringifyRoundTrip reads it back |
| Json.ParseCharsEscape | backend/assistant.js:72 | a string literal written by `JSON.stringify` reads back as the string |
| Json.StringifyRoundTrip | src/services/api.ts:55 | `JSON.parse(JSON.stringify(o))` gives the object back |
| Json.StringifyHasNoNewline | backend/assistant.js:72 | `JSON.stringify` never writes a line break |
| Json.PayloadRoundTrip | src/services/api.ts:55-56 | what the server writes decodes on the client to the same payload |
| ChatbotPage.Find | src/pages/Chatbot.tsx:36-38 | the first conversation with the id, present iff one has it |
| ChatbotPage.UpdateConversation | src/pages/Chatbot.tsx:130-142 | matching conversations gain the message and time; their title becomes the new title exactly when it is truthy and stays otherwise; others untouched |
| ChatbotPage.UpdateTwice | src/pages/Chatbot.tsx:130-142 | two updates append both messages in order and keep the last truthy title of the two, or the old one |
| ChatbotPage.AfterCreate | src/pages/Chatbot.tsx:144-159 | the new conversation goes first and becomes active |
| ChatbotPage.WithoutId | src/pages/Chatbot.tsx:162 | exactly the conversations with another id remain |
| ChatbotPage.AfterDeleteAsWritten | src/pages/Chatbot.tsx:161-167 | as written: the conversation leaves the list; another active id stays; a deleted active id becomes null iff there was at most one conversation before |
| ChatbotPage.DeleteFirstLeavesDeletedActive | src/pages/Chatbot.tsx:161-167 | as written, deleting the active first of two keeps the deleted id active |
| ChatbotPage.AfterDelete | src/pages/Chatbot.tsx:161-167 | corrected: the active id moves to a remaining conversation, none only when none remain |
| ChatbotPage.DeleteKeepsActiveValid | src/pages/Chatbot.tsx:161-167 | corrected deletion keeps the active id naming a conversation or absent |
| ChatbotPage.TruncateText | src/pages/Chatbot.tsx:169-172 | the text itself when its `length` is within `maxLength`; otherwise the longest prefix within `maxLength` (at least 0) UTF-16 code units, then `...` |
| ChatbotPage.TruncateBmp | src/pages/Chatbot.tsx:169-172 | for text inside the Basic Multilingual Plane, a text too long keeps exactly its first `maxLength` characters |
| ChatbotPage.IntToStringInjective | src/pages/Chatbot.tsx:183 | distinct day counts are written differently |
| ChatbotPage.FormatDate | src/pages/Chatbot.tsx:174-187 | a week or more gives the locale date; two to six days end in ` days ago` |
| ChatbotPage.FormatDateDistinct | src/pages/Chatbot.tsx:174-187 | under a week, distinct day differences get distinct labels, independent of the locale text |
| ChatbotPage.LatestTitle | src/pages/Chatbot.tsx:97-109 | the title kept is never empty |
| ChatbotPage.LatestTitleIsLastTruthy | src/pages/Chatbot.tsx:97-109 | a title is taken iff some chunk has a truthy one, and it is the last such |
| ChatbotPage.StreamInto | src/pages/Chatbot.tsx:78-96 | matching conversations get the streamed text in their last message; others untouched |
| ChatbotPage.CleanUp | src/pages/Chatbot.tsx:116-124 | the failed send removes the empty messages of the active conversation only |
| ChatbotPage.SendCollectsReply | src/pages/Chatbot.tsx:48-128 | a successful send leaves the user's message and one reply with all streamed text, the last truthy title, the time; others untouched |
| ChatbotPage.FailedSendCleansUp | src/pages/Chatbot.tsx:116-124 | after a failure the active conversation holds no empty message; others untouched |
| ChatbotPage.CreatedConversationIsNew | src/pages/Chatbot.tsx:63-75 | a new conversation's first send is `isNewConversation` and posts the greeting and the question |
| ChatbotPage.PlacedAwaitsReply | src/pages/Chatbot.tsx:68-72 | after the placeholder every active conversation awaits the reply |
| ChatbotPage.StreamStep | src/pages/Chatbot.tsx:77-110 | one more chunk moves the streamed state forward by its text and title |
| ChatbotPage.Page.constructor | src/pages/Chatbot.tsx:15-29 | conversation `1` with the greeting, active, empty input |
| ChatbotPage.Page.OnChunk | src/pages/Chatbot.tsx:77-110 | the chunk callback extends the text and replaces the title as the step function says |
| ChatbotPage.Page.StreamChunks | src/pages/Chatbot.tsx:77-110 | after all chunks the conversations are the streamed state of their texts and last title |
| ChatbotPage.Page.SendMessage | src/pages/Chatbot.tsx:48-128 | no-op on blank input or a falsy active id (absent or `""`); otherwise posts the history and `isNewConversation`, and ends in `AfterSend` with the input cleared |
| ChatbotPage.Page.PlaceQuestion | src/pages/Chatbot.tsx:52-76 | the user message then the empty placeholder are added (`Placed`), the input is cleared and `loading` set; the posted history and `isNewConversation` are read from the conversation before the updates |
| ChatbotPage.Page.AppendMessage | src/pages/Chatbot.tsx:130-142 | the state is `UpdateConversation` of the old one |
| ChatbotPage.Page.ReceiveReply | src/pages/Chatbot.tsx:75-124 | the reply streamed in, empty messages removed on failure |
| ChatbotPage.Page.CreateNewConversation | src/pages/Chatbot.tsx:144-159 | the state becomes `AfterCreate` |
| ChatbotPage.Page.DeleteConversation | src/pages/Chatbot.tsx:161-167 | the state becomes the corrected `AfterDelete` |
| AssistantChat.AppendChunk | src/components/AiAssistantChat.tsx:38-45 | when the last message is the assistant's, its content becomes exactly the old content followed by the chunk's text; every other message and the roles are unchanged |
| AssistantChat.RemoveEmpty | src/components/AiAssistantChat.tsx:51 | exactly the messages with text are kept |
| AssistantChat.RemoveEmptyCounts | src/components/AiAssistantChat.tsx:51 | each message with text is kept as many times as it occurs, and no empty one |
| AssistantChat.RemoveEmptyAppend | src/components/AiAssistantChat.tsx:51 | filtering a concatenation filters each part in place, so the order is kept |
| AssistantChat.PlaceholderCollectsChunks | src/components/AiAssistantChat.tsx:35-45 | the placeholder ends holding the chunks' texts in order |
| AssistantChat.SendCollectsReply | src/components/AiAssistantChat.tsx:21-55 | success leaves the question and one reply with the whole streamed text |
| AssistantChat.FailedSendKeepsQuestion | src/components/AiAssistantChat.tsx:49-52 | a failure keeps the question last and leaves no empty message |
| AssistantChat.Chat.constructor | src/components/AiAssistantChat.tsx:11-19 | the panel opens with the greeting |
| AssistantChat.Chat.OnChunk | src/components/AiAssistantChat.tsx:38-45 | the callback is `AppendChunk` |
| AssistantChat.Chat.StreamChunks | src/components/AiAssistantChat.tsx:38-45 | all chunks in order are `AppendChunks` |
| AssistantChat.Chat.SendMessage | src/components/AiAssistantChat.tsx:21-55 | no-op on blank input; otherwise posts the history and question and ends in `AfterSend` |
| AssistantChat.Chat.PlaceQuestion | src/components/AiAssistantChat.tsx:24-35 | the question then the empty assistant placeholder are appended, the input is cleared and `loading` set; returns the conversation with the question |
| DailyCheckin.Valid | src/components/DailyCheckin.tsx:42-55 | at most the entries given; ValidKeepsFilled says which |
| DailyCheckin.ValidKeepsFilled | src/components/DailyCheckin.tsx:42-56 | the filter keeps exactly the non-blank entries |
| DailyCheckin.Score | src/components/DailyCheckin.tsx:30-59 | the score is at least the base 10 |
| DailyCheckin.CalculateScore | src/components/DailyCheckin.tsx:30-59 | the step-by-step loop computes `Score` |
| DailyCheckin.ScoreByEntry | src/components/DailyCheckin.tsx:30-59 | the score is the base, the mood bonus and what each entry earns on its own |
| DailyCheckin.BlankEntryScoresNothing | src/components/DailyCheckin.tsx:42-56 | a blank entry in any list leaves the score unchanged |
| DailyCheckin.HandleSave | src/components/DailyCheckin.tsx:61-66 | the check-in is passed on with its score set and nothing else changed |
| DailyCheckin.AddItem | src/components/DailyCheckin.tsx:68-73 | an empty entry is added at the end of one list only |
| DailyCheckin.UpdateItem | src/components/DailyCheckin.tsx:75-80 | one entry replaced; an index outside the list changes nothing |
| DailyCheckin.RemoveAt | src/components/DailyCheckin.tsx:85 | the entry at the index removed, the rest in order; out of range removes nothing |
| DailyCheckin.RemoveItem | src/components/DailyCheckin.tsx:82-87 | removal from one list only |
| DailyCheckin.RemoveUndoesAdd | src/components/DailyCheckin.tsx:68-87 | removing the entry just added restores the check-in |
| DailyCheckin.UpdateUndone | src/components/DailyCheckin.tsx:75-80 | writing back the old entry undoes an update |
| DailyCheckin.NewCheckin | src/components/DailyCheckin.tsx:21-28 | a fresh form scores the base plus a good mood |
| Tasks.FloorSqrt | src/pages/Tasks.tsx:143 | `Math.floor(Math.sqrt(m))`: r² ≤ m < (r+1)² |
| Tasks.Level | src/pages/Tasks.tsx:142-144 | the level is at least 1 |
| Tasks.LevelBounds | src/pages/Tasks.tsx:142-144 | level L is reached at exactly 100·(L−1)² XP and lasts until 100·L² |
| Tasks.LevelMonotone | src/pages/Tasks.tsx:142-144 | more XP never lowers the level |
| Tasks.SortedDesc | src/pages/Tasks.tsx:153 | the dates latest first: same dates, strictly descending |
| Tasks.Streak | src/pages/Tasks.tsx:152-175 | the streak never exceeds the number of recorded days |
| Tasks.StreakOfIsLongestRun | src/pages/Tasks.tsx:157-172 | the streak is the longest latest-first run of completed days each at most a day apart: all counted days qualify, the next does not |
| Tasks.CalculateStreak | src/pages/Tasks.tsx:152-175 | the loop with its `break` computes `Streak` |
| Tasks.Earned | src/pages/Tasks.tsx:47-76 | only the four badge ids are ever earned |
| Tasks.NewBadges | src/pages/Tasks.tsx:177-202 | a badge is new iff it is a candidate, earned and not held |
| Tasks.CheckAndAwardBadges | src/pages/Tasks.tsx:177-202 | held badges kept as a prefix; new ones are earned and not held; every earned badge ends up held; nothing else changes |
| Tasks.AwardIdempotent | src/pages/Tasks.tsx:177-202 | awarding twice is awarding once |
| Tasks.AwardKeepsBadgesDistinct | src/pages/Tasks.tsx:177-202 | awarding never adds a repeated badge |
| Tasks.AddTask | src/pages/Tasks.tsx:204-230 | without a title nothing changes; else the fresh task is appended and the form reset and hidden |
| Tasks.FreshTaskStartsEmpty | src/pages/Tasks.tsx:204-230 | a new task's level, streak and badges agree with the rules |
| Tasks.ToggleAsWritten | src/pages/Tasks.tsx:232-272 | as written: the day flips and records 50 XP when completed, 0 otherwise; XP stays non-negative with its level; badges awarded |
| Tasks.ToggleDay | src/pages/Tasks.tsx:232-272 | corrected: the day records exactly the XP gained; completing adds the gain, uncompleting takes back what was recorded; level follows XP; badges awarded |
| Tasks.ToggleAsWrittenEffect | src/pages/Tasks.tsx:232-272 | as written: completing records only 50 XP, adds 50 + streak bonus + notes bonus, uncompleting subtracts what was recorded, clamped at 0; level recomputed |
| Tasks.CompletionCycleGainsXp | src/pages/Tasks.tsx:240-249 | as written, a task with 0 XP and one day whose notes exceed 50 code units gets 80 XP on completion and keeps 30 after uncompleting, its days restored |
| Tasks.CompletionCycleRestoresXp | src/pages/Tasks.tsx:232-272 | corrected: completing gains XP and uncompleting takes back exactly that, restoring XP and level |
| Tasks.StreakIgnoresXp | src/pages/Tasks.tsx:244-245 | the XP recorded on a day never affects the streak |
| Tasks.ToggleTaskCompletion | src/pages/Tasks.tsx:232-272 | as written: matching tasks toggled on the date, a completed day recording only the base 50 XP; others untouched |
| Tasks.PageCompletionCycleGainsXp | src/pages/Tasks.tsx:232-272 | as written, the same task toggled twice through the page handler gets 80 XP, then keeps 30 |
| Tasks.ToggleTaskCompletionCorrected | src/pages/Tasks.tsx:232-272 | corrected: matching tasks toggled on the date, a completed day recording all it earned; others untouched |
| Tasks.PageCompletionCycleRestoresXp | src/pages/Tasks.tsx:232-272 | corrected, on the page: completing and uncompleting a day restores every matching task's XP and level and leaves the others equal |
| Tasks.WithNote | src/pages/Tasks.tsx:279-300 | the note saved; XP and the day's record grow by the change; the badges are those awarded to the updated task: old ones kept, every earned one held |
| Tasks.UpdateTaskNote | src/pages/Tasks.tsx:275-309 | saving the note being edited ends the editing; any other call starts editing and keeps the tasks |
| Tasks.NoteXpOnlyGrows | src/pages/Tasks.tsx:279-281 | notes never lower XP, and raise it iff they newly exceed 50 UTF-16 code units |
| Tasks.ToggleTaskExpansion | src/pages/Tasks.tsx:311-318 | matching tasks' `isExpanded` flipped, others untouched |
| Tasks.ToggleExpansionTwice | src/pages/Tasks.tsx:311-318 | expanding twice restores the tasks |
| Tasks.Assign | src/pages/Tasks.tsx:391-407 | an index write replaces in range, appends at the length, ignores a negative index |
| Tasks.AddAchievement | src/pages/Tasks.tsx:377-382 | an empty achievement at the end |
| Tasks.AddChallenge | src/pages/Tasks.tsx:384-389 | an empty challenge at the end |
| Tasks.CheckinEditsAreLocal | src/pages/Tasks.tsx:377-421 | each check-in edit touches one list; removing what was just added restores the form |
| Tasks.WithCheckin | src/pages/Tasks.tsx:350-364 | today's record gets the check-in, a missing day starting empty; other days and fields unchanged |
| Tasks.HandleDailyCheckin | src/pages/Tasks.tsx:346-375 | no task id: nothing changes; otherwise matching tasks get the check-in and the form is reset and hidden |
| Tasks.CheckinKeepsProgress | src/pages/Tasks.tsx:346-375 | a check-in on a recorded day changes no streak and no earned badge |
| Notepad.AllTags | src/pages/Notepad.tsx:54 | each tag of some note exactly once |
| Notepad.UniqueKeepsFirstOccurrences | src/pages/Notepad.tsx:54 | the `Set` keeps first-occurrence order: more notes only extend the list |
| Notepad.Matches | src/pages/Notepad.tsx:58-65 | no search and no tags match every note; a matching note holds every selected tag |
| Notepad.FilterNotes | src/pages/Notepad.tsx:57-65 | every note kept matches |
| Notepad.FilterKeepsMatches | src/pages/Notepad.tsx:57-65 | the filter keeps exactly the matching notes |
| Notepad.NoFilterKeepsAll | src/pages/Notepad.tsx:58-63 | no search and no tags keep all notes in order |
| Notepad.SearchInTitleMatches | src/pages/Notepad.tsx:59 | a case-insensitive occurrence in the title matches |
| Notepad.SortNotes | src/pages/Notepad.tsx:66-72 | sorting is a permutation |
| Notepad.SortNotesOrdered | src/pages/Notepad.tsx:66-72 | sorted by `updatedAt` in the chosen direction |
| Notepad.FilteredNotes | src/pages/Notepad.tsx:57-72 | never more notes than given; FilteredNotesShowMatches says which |
| Notepad.FilteredNotesShowMatches | src/pages/Notepad.tsx:57-72 | the list shown is exactly the matching notes, ordered |
| Notepad.ParseTags | src/pages/Notepad.tsx:81 | parsed tags are non-empty and trimmed |
| Notepad.ParseJoinedTags | src/pages/Notepad.tsx:81-117 | tags joined for editing parse back to the same tags |
| Notepad.AddNote | src/pages/Notepad.tsx:74-88 | blank title: nothing; else the note is appended with parsed tags and the form reset |
| Notepad.UpdateNote | src/pages/Notepad.tsx:90-107 | not editing or blank title: nothing; else the edited note replaced and the form reset |
| Notepad.DeleteNote | src/pages/Notepad.tsx:109-111 | no note left has the id |
| Notepad.DeleteRemovesId | src/pages/Notepad.tsx:109-111 | exactly the notes with another id remain |
| Notepad.DeleteKeepsOrder | src/pages/Notepad.tsx:109-111 | deletion keeps the order |
| Notepad.StartEditNote | src/pages/Notepad.tsx:113-119 | the form is filled from the note, tags joined with `, `, and shown; notes, search, sort order and selected tags kept |
| Notepad.EditUnchangedKeepsNote | src/pages/Notepad.tsx:90-119 | saving an unchanged edit keeps the note's title, content and tags |
| Notepad.ResetForm | src/pages/Notepad.tsx:121-127 | the form is cleared and hidden; notes and filters kept |
| Notepad.ToggleTagSelection | src/pages/Notepad.tsx:129-135 | the tag's selection flips; other tags unchanged |
| Notepad.ToggleTagTwice | src/pages/Notepad.tsx:129-135 | toggling twice restores the selection |
| Notepad.ToggleSortOrder | src/pages/Notepad.tsx:137-139 | the order flips |
| Notepad.ToggleSortTwice | src/pages/Notepad.tsx:137-139 | flipping twice restores it |
| Team.SendMessage | src/pages/Team.tsx:129-146 | no chat or blank text: nothing; else one message appended to the open chat, others untouched, input cleared |
| Team.SendAddsOneMessage | src/pages/Team.tsx:129-146 | one message per send; resending the cleared input does nothing |
| Team.HandleInvite | src/pages/Team.tsx:148-153 | a non-blank address clears and hides the form; else nothing |
| Team.InviteOnlyTouchesForm | src/pages/Team.tsx:148-153 | the invitation touches only its form, and a second one does nothing |
| Team.StatusClass | src/pages/Team.tsx:155-161 | every status has a class |
| Team.StatusClassesDistinct | src/pages/Team.tsx:155-161 | each status has its own class |

## Left out

- The OpenAI client, the prompts and the model names (`backend/assistant.js`, `backend/langchain.js`) are not modelled. Completions are parameters: a delta sequence with failure flags, and a title function.
- `delay` between writes (`backend/assistant.js`), `dotenv`, `process.exit`, CORS and Express routing are I/O and timing, so they are not modelled.
- `fetch`, `ReadableStream` and `TextDecoder` (`src/services/api.ts`) are not modelled. A response is its status and the text chunks read, and multi-byte characters split across reads are not modelled.
- Json: only flat objects of strings, booleans and `null` are modelled, written without white space. Numbers, arrays, nesting and white space inside JSON are not modelled.
- React state batching, effects, stale closures and rendering are not modelled. Each handler is one transition of the page state.
- AssistantChat.Chat.OnChunk: the source mutates `lastMessage` in place inside the updater. The model builds a new message, which gives the same result when each updater runs once.
- Times of day, timezones, `format` and `toLocaleDateString` are not modelled. Dates are whole day numbers, and the locale text is a parameter of `ChatbotPage.FormatDate`.
- Tasks.WithCheckin: for a day with no entry the source writes a record holding only `checkin`, so `completed`, `notes` and `xpEarned` are undefined and a later `notes.length` throws. The model gives that day `false`, `""` and `0`.
- Tasks.ToggleTaskCompletion and Tasks.ToggleTaskCompletionCorrected: they require the date to exist for matching tasks. On a missing date the source throws a `TypeError`. Tasks.UpdateTaskNote has the same requirement.
- Tasks.Assign: writing past the end of an array leaves holes in the source, which `seq` cannot hold, so the model requires `index <= |items|`.
- Tasks.UpdateAchievement and Tasks.UpdateChallenge are modelled through Tasks.Assign and not given rows of their own. The same goes for Tasks.RemoveAchievement and Tasks.RemoveChallenge, which use DailyCheckin.RemoveAt.
- `toLowerCase` is modelled on ASCII letters only.
- ChatbotPage.TruncateText: when `substring(0, maxLength)` would cut a character outside the Basic Multilingual Plane in two, the source keeps half of a surrogate pair. A Dafny `string` cannot hold that, so the model keeps the whole characters that fit and drops the one that would be cut.
- Http.Response.SendJson: Express's `res.json` also sets `Content-Type` (to `application/json`, or adds `charset=utf-8` to a type already set), `Content-Length` and an `ETag`. The model keeps the headers as they were and records only the status and body.
- Server.ChatbotOpenAfterLateFailure: after a frame went out, the handler's `res.status(500).json(...)` throws `ERR_HTTP_HEADERS_SENT` inside the route. The model follows the reading where the process survives and the response stays open. What really happens depends on the runtime: under Express 4 on Node 15 or later the unhandled rejection can end the process, and Express 5 passes the error on and closes the connection.
- `calculateProgress`, `getStreakData` and `getXpProgressData` (`src/pages/Tasks.tsx`) are not modelled. They feed charts and use floating point.
- Toasts, confetti, level-up messages and the date and mood setters of the forms are not modelled.
- Notepad.SortNotes: its stability (equal `updatedAt` keeps the filter's order) holds by construction of the insertion sort but is not stated as a contract.
- AssistantStream.Clean: its own contract states only that both ends are trimmed. CleanIsClean and CleanKeepsText state the rest, kept apart so that proofs unfolding `Clean` stay small.
- AssistantStream.Step, AssistantStream.Run, ChatbotStream.Step and ChatbotStream.Run: their contracts only bound the number of sends. What is sent is stated by RunReachable, RunConservesText and SentTextsSpellDeltas.
- Integration.EventsKeepText: the text shown equals the deltas' text only up to white space. Each send is trimmed and the panel joins the chunks with nothing between them, so the spaces between two sends are lost.
- Tasks.Earned: its contract states only that the badge is one of the four ids. The four conditions are its body, which NewBadges and CheckAndAwardBadges use.
- DailyCheckin.Valid and Notepad.FilteredNotes: their own contracts bound the length only. ValidKeepsFilled and FilteredNotesShowMatches state which entries remain.
- `Date.now()` ids are parameters, and their uniqueness is not modelled.
- The other pages (`Dashboard`, `Landing`, `AiAssistant`, `NotFound`), authentication and navigation are not part of this model.

## Findings

| source | as written | input that shows it | evidently intended | confidence | as-written member | corrected member |
|---|---|---|---|---|---|---|
| backend/server.js:41-44 | `/api/assistant` answers with `res.json`: one JSON text with no line break, while `sendMessageToAssistant` (src/services/api.ts:44-62) only dispatches finished `data: ` lines | the model replies `Hi.`: status 200 with body `{"role":"assistant","content":"Hi."}`, and the client hands nothing to `onChunk` | serve the route as an event stream through `handleStream` of backend/assistant.js, which the client reads back exactly | high, not executed | Integration.AssistantAnswerLost | Integration.AssistantStreamDelivered |
| src/pages/Chatbot.tsx:165 | the next active id is taken from `conversations` before the deletion | conversations `1`, `2` with `1` active; delete `1`: `1` stays active though no conversation has it | the first remaining conversation becomes active, or none when none remain | high, not executed | ChatbotPage.DeleteFirstLeavesDeletedActive | ChatbotPage.DeleteKeepsActiveValid |
| src/pages/Tasks.tsx:240-249 | a completed day records only the base 50 XP, but completing also grants the streak and detailed-notes bonuses, and uncompleting takes back only what was recorded | a task with 0 XP and one day whose notes exceed 50 code units: completing gives 80 XP, uncompleting leaves 30 | uncompleting takes back everything completing gave, as the sample data's recorded 70 XP (line 110) suggests | medium, not executed | Tasks.CompletionCycleGainsXp | Tasks.CompletionCycleRestoresXp |
