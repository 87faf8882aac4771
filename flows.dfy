/**
 * Event sequences as the panel's own tests drive them: each asynchronous
 * call is answered as soon as it is issued, so the callback runs right after
 * the method that issued the request.
 */
module PanelFlows {
  import opened Wrappers
  import opened Api
  import opened MessageLog
  import opened ToolWindow

  /**
   * Sending the typed question and resolving its request with `response`.
   * On success the log gains exactly the user message and then the assistant
   * message; on failure the log keeps its length and its elements, and is
   * restored exactly unless the same user message was already in it. Either
   * way the transcript shows the question, the wait is over and Send is enabled.
   * The lists, the selections and the file tree are left alone.
   */
  method SendAndResolve(p: Panel, read: string -> string, response: Response<string>) returns (question: Option<Question>)
    requires p.Valid()
    modifies p`messages, p`chat, p`input, p`sendEnabled, p`waitingForResponse
    ensures p.Valid()
    ensures !CanAsk(old(p.input), old(p.selectedModule), old(p.selectedExercise)) ==>
      && question == None && p.messages == old(p.messages) && p.chat == old(p.chat) && p.input == old(p.input)
      && p.sendEnabled == old(p.sendEnabled) && p.waitingForResponse == old(p.waitingForResponse)
    ensures CanAsk(old(p.input), old(p.selectedModule), old(p.selectedExercise)) ==>
      && question.Some?
      && question.value.context == old(p.messages) + [Message(UserRole, old(p.input))]
      && p.input == "" && !p.waitingForResponse && p.sendEnabled
    ensures CanAsk(old(p.input), old(p.selectedModule), old(p.selectedExercise)) && response.Ok? ==>
      && p.messages == old(p.messages) + [Message(UserRole, old(p.input)), Message(AssistantRole, response.body)]
      && p.chat == old(p.chat) + UserLine(old(p.input)) + AnswerLine(response.body)
    ensures CanAsk(old(p.input), old(p.selectedModule), old(p.selectedExercise)) && !response.Ok? ==>
      && |p.messages| == |old(p.messages)|
      && multiset(p.messages) == multiset(old(p.messages))
      && (Message(UserRole, old(p.input)) !in old(p.messages) ==> p.messages == old(p.messages))
      && p.chat == old(p.chat) + UserLine(old(p.input)) + ErrorReply
      && p.messages == RemoveFirst(old(p.messages) + [Message(UserRole, old(p.input))], Message(UserRole, old(p.input)))
  {
    ghost var log := p.messages;
    var asked := Message(UserRole, p.input);
    question := p.SendMessage(read);
    if question.Some? {
      assert p.messages == log + [asked];
      p.OnAnswer(asked, response);
      if response.Ok? {
        var reply := Message(AssistantRole, response.body);
        assert log + [asked] + [reply] == log + [asked, reply];
      } else {
        RetractAppended(log, asked);
      }
    }
  }

  /**
   * Reloading the lists: the module request resolves with `modulesResponse`
   * and, when that issues an exercise request, it resolves with
   * `exercisesResponse`. Send ends up enabled only if both lists arrived, the
   * exercise list is non-empty and no answer is awaited (or, when the first
   * module is literally "Connection Error", Send is left as it was). Only the
   * lists, their selections and Send change.
   */
  method ReloadLists(p: Panel, modulesResponse: Response<seq<string>>, exercisesResponse: Response<seq<string>>)
    returns (fetch: Option<string>)
    requires p.Valid()
    modifies p`modules, p`selectedModule, p`exercises, p`selectedExercise, p`sendEnabled
    ensures p.Valid()
    ensures fetch.Some? <==> modulesResponse.Ok? && modulesResponse.body != [] && modulesResponse.body[0] != ConnectionError
    ensures fetch.Some? ==>
      && fetch == Some(modulesResponse.body[0])
      && p.modules == modulesResponse.body && p.selectedModule == Some(modulesResponse.body[0])
      && (exercisesResponse.Ok? ==>
            && p.exercises == exercisesResponse.body
            && p.selectedExercise == DefaultSelection(exercisesResponse.body)
            && (p.sendEnabled <==> exercisesResponse.body != [] && !p.waitingForResponse))
      && (!exercisesResponse.Ok? ==> p.exercises == [ConnectionError] && !p.sendEnabled)
      && (exercisesResponse.ServerError? ==> p.selectedExercise == None)
      && (exercisesResponse.NetworkFailure? ==> p.selectedExercise == Some(ConnectionError))
    ensures !(modulesResponse.Ok? && modulesResponse.body != []) ==>
      && p.modules == [ConnectionError] && p.exercises == [ConnectionError] && !p.sendEnabled
      && p.selectedModule == Some(ConnectionError) && p.selectedExercise == Some(ConnectionError)
    ensures modulesResponse.Ok? && modulesResponse.body != [] && modulesResponse.body[0] == ConnectionError ==>
      && p.modules == modulesResponse.body && p.selectedModule == Some(ConnectionError)
      && p.exercises == [ConnectionError] && p.selectedExercise == Some(ConnectionError)
      && p.sendEnabled == old(p.sendEnabled)
  {
    fetch := p.OnModules(modulesResponse);
    if fetch.Some? {
      p.OnExercises(exercisesResponse);
    }
  }
}
