/**
 * The tool-window panel: the conversation, the module and exercise
 * dropdowns, the Send button and the checkbox file tree, as one object whose
 * methods are the events the panel reacts to. An asynchronous call is split
 * in two: the method that issues it returns the request, and a separate
 * method is the callback that runs when the call resolves.
 */
module ToolWindow {
  import opened Wrappers
  import opened Api
  import opened MessageLog
  import opened FileSelection

  /** Sentinel list entry shown while a list is being fetched. */
  const Loading := "Loading..."

  /** Sentinel list entry shown when a list could not be fetched. */
  const ConnectionError := "Connection Error"

  /** Transcript text appended when a question fails. */
  const ErrorReply := "MyMark: An ERROR occurred, please try again\n\n"

  /** Transcript text appended for the user's question. */
  function UserLine(text: string): string
  {
    "User: " + text + "\n\n"
  }

  /** Transcript text appended for the service's answer. */
  function AnswerLine(answer: string): string
  {
    "MyMark: " + answer + "\n\n"
  }

  /** The item a dropdown selects when its model is replaced by one built from `items`: the first one, if any. */
  function DefaultSelection(items: seq<string>): Option<string>
  {
    if items == [] then None else Some(items[0])
  }

  /** The guard of a submission: some text typed, and a module and an exercise selected. */
  predicate CanAsk(input: string, selectedModule: Option<string>, selectedExercise: Option<string>)
  {
    input != "" && selectedModule.Some? && selectedExercise.Some?
  }

  class Panel {
    /** The conversation log sent as context with every question. */
    var messages: seq<Message>
    /** The text of the chat area. */
    var chat: string
    /** The text of the message field. */
    var input: string
    var modules: seq<string>
    var exercises: seq<string>
    /** The selected item of the module dropdown (null in the source when there is none). */
    var selectedModule: Option<string>
    /** The selected item of the exercise dropdown. */
    var selectedExercise: Option<string>
    /** Whether the Send button is enabled. */
    var sendEnabled: bool
    /** Whether a question has been issued and its answer has not arrived. */
    var waitingForResponse: bool
    /** The path of the file focused in the editor. */
    var currentFile: Option<string>
    /** Path to isChecked of the node registered under that path; never cleared. */
    var nodeMap: map<string, bool>
    /** What the checkbox tree shows. */
    var view: View
    /** Whether a tree has ever been built from a project. */
    var foundFiles: bool

    /**
     * The panel's invariant: each dropdown's selection is one of its items (the
     * module dropdown has one exactly when it has items), Send is never enabled
     * while an answer is awaited, and every node of the shown tree is
     * registered in the node map.
     */
    ghost predicate Valid()
      reads this
    {
      && (selectedModule.Some? <==> modules != [])
      && (selectedModule.Some? ==> selectedModule.value in modules)
      && (selectedExercise.Some? ==> selectedExercise.value in exercises)
      && (sendEnabled ==> !waitingForResponse)
      && (view.Rooted? ==> foundFiles && forall p :: p in Paths(view.root) ==> p in nodeMap)
    }

    /**
     * Opening the panel: both lists show "Loading...", Send is disabled, the
     * focused file is recorded and the file tree is built. The module request
     * issued at the end of the initialisation resolves later, through OnModules.
     */
    constructor (focus: Option<string>, project: Snapshot)
      ensures Valid()
      ensures messages == [] && chat == "" && input == ""
      ensures modules == [Loading] && exercises == [Loading]
      ensures selectedModule == Some(Loading) && selectedExercise == Some(Loading)
      ensures !sendEnabled && !waitingForResponse
      ensures currentFile == focus
      ensures project.NoProject? ==> view == Placeholder && nodeMap == map[] && !foundFiles
      ensures project.Project? ==> view == Rooted(project.root) && nodeMap == RootMarks(project.root, focus) && foundFiles
    {
      messages, chat, input := [], "", "";
      modules, exercises := [Loading], [Loading];
      selectedModule, selectedExercise := DefaultSelection([Loading]), DefaultSelection([Loading]);
      sendEnabled, waitingForResponse := false, false;
      currentFile, nodeMap, view, foundFiles := None, map[], Placeholder, false;
      new;
      FocusChanged(focus);
      assert nodeMap.Keys == {};
      assert nodeMap == map[];
      RefreshFileTree(project);
      if project.Project? {
        assert map[] + RootMarks(project.root, focus) == RootMarks(project.root, focus);
      }
    }

    /**
     * Refreshing the exercise list for the selected module. A request is issued
     * (and returned) only when the module list is non-empty and does not start
     * with "Connection Error"; otherwise the exercise list becomes
     * ["Connection Error"], or empty when there are no modules. Send is left alone.
     */
    method UpdateExercises() returns (fetch: Option<string>)
      requires Valid()
      modifies this`exercises, this`selectedExercise
      ensures Valid()
      ensures fetch.Some? <==> modules != [] && modules[0] != ConnectionError
      ensures fetch.Some? ==> fetch == selectedModule && exercises == old(exercises) && selectedExercise == old(selectedExercise)
      ensures modules != [] && modules[0] == ConnectionError ==> exercises == [ConnectionError] && selectedExercise == Some(ConnectionError)
      ensures modules == [] ==> exercises == [] && selectedExercise == None
    {
      if modules != [] && modules[0] != ConnectionError {
        fetch := Some(selectedModule.value);
      } else if modules != [] {
        exercises := [ConnectionError];
        selectedExercise := DefaultSelection(exercises);
        fetch := None;
      } else {
        exercises := [];
        selectedExercise := DefaultSelection(exercises);
        fetch := None;
      }
    }

    /**
     * The exercise request resolves. A 2xx body replaces the list, selects its
     * first entry (none when empty) and enables Send exactly when the list is
     * non-empty and no answer is awaited. A non-2xx status or a transport
     * failure shows ["Connection Error"] and disables Send; after a non-2xx
     * status nothing is selected.
     */
    method OnExercises(response: Response<seq<string>>)
      requires Valid()
      modifies this`exercises, this`selectedExercise, this`sendEnabled
      ensures Valid()
      ensures response.Ok? ==> exercises == response.body && selectedExercise == DefaultSelection(response.body)
      ensures response.Ok? ==> (sendEnabled <==> response.body != [] && !waitingForResponse)
      ensures !response.Ok? ==> exercises == [ConnectionError] && !sendEnabled
      ensures response.ServerError? ==> selectedExercise == None
      ensures response.NetworkFailure? ==> selectedExercise == Some(ConnectionError)
    {
      match response
      case Ok(body) =>
        exercises := body;
        sendEnabled := exercises != [] && !waitingForResponse;
        // Installing the new model selects its first item; the code then sets the selection itself.
        selectedExercise := DefaultSelection(exercises);
        selectedExercise := if exercises != [] then Some(exercises[0]) else None;
      case ServerError =>
        exercises := [ConnectionError];
        sendEnabled := false;
        // Installing the new model selects its first item; the code then clears the selection.
        selectedExercise := DefaultSelection(exercises);
        selectedExercise := None;
      case NetworkFailure =>
        exercises := [ConnectionError];
        selectedExercise := DefaultSelection(exercises);
        sendEnabled := false;
    }

    /**
     * The module request resolves. A 2xx non-empty list replaces the modules,
     * selects the first and cascades into UpdateExercises. A non-2xx status, an
     * empty list or a transport failure turns both lists into
     * ["Connection Error"] and disables Send.
     */
    method OnModules(response: Response<seq<string>>) returns (fetch: Option<string>)
      requires Valid()
      modifies this`modules, this`selectedModule, this`exercises, this`selectedExercise, this`sendEnabled
      ensures Valid()
      ensures response.Ok? && response.body != [] ==>
        && modules == response.body
        && selectedModule == Some(response.body[0])
        && sendEnabled == old(sendEnabled)
        && (response.body[0] != ConnectionError ==>
              fetch == Some(response.body[0]) && exercises == old(exercises) && selectedExercise == old(selectedExercise))
        && (response.body[0] == ConnectionError ==>
              fetch == None && exercises == [ConnectionError] && selectedExercise == Some(ConnectionError))
      ensures !(response.Ok? && response.body != []) ==>
        && fetch == None
        && modules == [ConnectionError] && exercises == [ConnectionError]
        && selectedModule == Some(ConnectionError) && selectedExercise == Some(ConnectionError)
        && !sendEnabled
    {
      if response.Ok? && response.body != [] {
        modules := response.body;
        // Installing the new model selects its first item; the code then selects that item again.
        selectedModule := DefaultSelection(modules);
        selectedModule := Some(modules[0]);
        fetch := UpdateExercises();
      } else {
        modules := [ConnectionError];
        exercises := [ConnectionError];
        sendEnabled := false;
        selectedExercise := DefaultSelection(exercises);
        selectedModule := DefaultSelection(modules);
        fetch := None;
      }
    }

    /**
     * The user picks the `choice`-th module: the exercise list shows
     * ["Loading..."], then the exercises are refreshed for that module.
     */
    method ModuleChanged(choice: nat) returns (fetch: Option<string>)
      requires Valid() && choice < |modules|
      modifies this`selectedModule, this`exercises, this`selectedExercise
      ensures Valid()
      ensures selectedModule == Some(modules[choice])
      ensures modules[0] != ConnectionError ==>
        fetch == Some(modules[choice]) && exercises == [Loading] && selectedExercise == Some(Loading)
      ensures modules[0] == ConnectionError ==>
        fetch == None && exercises == [ConnectionError] && selectedExercise == Some(ConnectionError)
    {
      selectedModule := Some(modules[choice]);
      exercises := [Loading];
      selectedExercise := DefaultSelection(exercises);
      fetch := UpdateExercises();
    }

    /**
     * Sending the typed question. Without text, a selected module or a
     * selected exercise nothing happens and no request is issued. Otherwise the
     * question is echoed to the transcript, the field is cleared, Send is
     * disabled, the user message is appended to the log, and the request
     * returned carries the code context and the whole log ending in that message.
     */
    method SendMessage(read: string -> string) returns (question: Option<Question>)
      requires Valid()
      modifies this`chat, this`input, this`sendEnabled, this`messages, this`waitingForResponse
      ensures Valid()
      ensures !CanAsk(old(input), selectedModule, selectedExercise) ==>
        && question == None
        && chat == old(chat) && input == old(input) && messages == old(messages)
        && sendEnabled == old(sendEnabled) && waitingForResponse == old(waitingForResponse)
      ensures CanAsk(old(input), selectedModule, selectedExercise) ==>
        && chat == old(chat) + UserLine(old(input))
        && input == ""
        && !sendEnabled
        && messages == old(messages) + [Message(UserRole, old(input))]
        && waitingForResponse
        && question == Some(Question(CodeContext(foundFiles, view, nodeMap, read), messages,
                                     selectedExercise.value, selectedModule.value))
    {
      var text := input;
      if CanAsk(text, selectedModule, selectedExercise) {
        chat := chat + UserLine(text);
        input := "";
        sendEnabled := false;
      } else {
        return None;
      }
      var code := GetCodeContents(read);
      var asked := Message(UserRole, text);
      messages := messages + [asked];
      question := Some(Question(code, messages, selectedExercise.value, selectedModule.value));
      waitingForResponse := true;
    }

    /**
     * The Send button and the Enter key: they submit only while Send is
     * enabled, so a question is issued only when no answer is awaited.
     */
    method Submit(read: string -> string) returns (question: Option<Question>)
      requires Valid()
      modifies this`chat, this`input, this`sendEnabled, this`messages, this`waitingForResponse
      ensures Valid()
      ensures question.Some? ==> old(sendEnabled) && !old(waitingForResponse) && waitingForResponse
      ensures question.Some? <==> old(sendEnabled) && CanAsk(old(input), selectedModule, selectedExercise)
      ensures question.Some? ==>
        && chat == old(chat) + UserLine(old(input))
        && input == ""
        && !sendEnabled
        && messages == old(messages) + [Message(UserRole, old(input))]
        && question == Some(Question(CodeContext(foundFiles, view, nodeMap, read), messages,
                                     selectedExercise.value, selectedModule.value))
      ensures question.None? ==>
        && chat == old(chat) && input == old(input) && messages == old(messages)
        && sendEnabled == old(sendEnabled) && waitingForResponse == old(waitingForResponse)
    {
      if sendEnabled {
        question := SendMessage(read);
      } else {
        question := None;
      }
    }

    /**
     * The question request resolves; `asked` is the user message that the
     * request's callback captured. A 2xx answer is appended to the log as an
     * assistant message and to the transcript. A non-2xx status or a transport
     * failure removes the first log entry equal to `asked` and reports an error.
     * Either way the wait ends and Send is enabled.
     */
    method OnAnswer(asked: Message, response: Response<string>)
      requires Valid()
      modifies this`messages, this`chat, this`waitingForResponse, this`sendEnabled
      ensures Valid()
      ensures !waitingForResponse && sendEnabled
      ensures response.Ok? ==>
        messages == old(messages) + [Message(AssistantRole, response.body)] && chat == old(chat) + AnswerLine(response.body)
      ensures !response.Ok? ==>
        messages == RemoveFirst(old(messages), asked) && chat == old(chat) + ErrorReply
    {
      match response
      case Ok(answer) =>
        messages := messages + [Message(AssistantRole, answer)];
        chat := chat + AnswerLine(answer);
        waitingForResponse := false;
        sendEnabled := true;
      case ServerError =>
        messages := RemoveFirst(messages, asked);
        chat := chat + ErrorReply;
        waitingForResponse := false;
        sendEnabled := true;
      case NetworkFailure =>
        messages := RemoveFirst(messages, asked);
        chat := chat + ErrorReply;
        sendEnabled := true;
        waitingForResponse := false;
    }

    /**
     * The editor focus changes to `file` (None: no file is focused). With a
     * file, the node of the previously focused path is unchecked and the node of
     * the new path is checked, each only if registered; without one nothing is
     * unchecked. The focused path is recorded either way.
     */
    method FocusChanged(file: Option<string>)
      requires Valid()
      modifies this`nodeMap, this`currentFile
      ensures Valid()
      ensures currentFile == file
      ensures nodeMap == Refocus(old(nodeMap), old(currentFile), file)
    {
      if file.Some? {
        if currentFile.Some? && currentFile.value in nodeMap {
          nodeMap := nodeMap[currentFile.value := false];
        }
        if file.value in nodeMap {
          nodeMap := nodeMap[file.value := true];
        }
        currentFile := file;
      } else {
        currentFile := None;
      }
    }

    /**
     * Building the node of `t` and, recursively, of its descendants: each is
     * registered unchecked, and checked if its path is the focused file.
     */
    method BuildTreeHelper(t: FileTree)
      modifies this`nodeMap
      ensures nodeMap == old(nodeMap) + Marks(t, currentFile)
      decreases t
    {
      nodeMap := nodeMap[t.path := false];
      if Some(t.path) == currentFile {
        nodeMap := nodeMap[t.path := true];
      }
      ghost var own := map[t.path := Some(t.path) == currentFile];
      assert nodeMap == old(nodeMap) + own;
      if t.Dir? {
        var i := 0;
        while i < |t.children|
          invariant 0 <= i <= |t.children|
          invariant nodeMap == old(nodeMap) + own + MarksOf(t.children[..i], currentFile)
        {
          BuildTreeHelper(t.children[i]);
          MarksOfSnoc(t.children, i, currentFile);
          UnionAssociative(old(nodeMap) + own, MarksOf(t.children[..i], currentFile), Marks(t.children[i], currentFile));
          i := i + 1;
        }
        assert t.children[..|t.children|] == t.children;
        UnionAssociative(old(nodeMap), own, MarksOf(t.children, currentFile));
      }
    }

    /**
     * Building the tree for a project snapshot. Without a project the stand-in
     * node is returned and nothing is registered. Otherwise the root is
     * registered unchecked, its children are built, and the panel records that
     * files were found. Entries registered by earlier builds stay in the map.
     */
    method BuildTreeNew(project: Snapshot) returns (v: View)
      modifies this`nodeMap, this`foundFiles
      ensures project.NoProject? ==> v == Placeholder && nodeMap == old(nodeMap) && foundFiles == old(foundFiles)
      ensures project.Project? ==>
        v == Rooted(project.root) && nodeMap == old(nodeMap) + RootMarks(project.root, currentFile) && foundFiles
    {
      if project.NoProject? {
        return Placeholder;
      }
      var root := project.root;
      nodeMap := nodeMap[root.path := false];
      ghost var own := map[root.path := false];
      assert nodeMap == old(nodeMap) + own;
      var children := RootChildren(root);
      var i := 0;
      while i < |children|
        invariant 0 <= i <= |children|
        invariant nodeMap == old(nodeMap) + own + MarksOf(children[..i], currentFile)
      {
        BuildTreeHelper(children[i]);
        MarksOfSnoc(children, i, currentFile);
        UnionAssociative(old(nodeMap) + own, MarksOf(children[..i], currentFile), Marks(children[i], currentFile));
        i := i + 1;
      }
      assert children[..|children|] == children;
      UnionAssociative(old(nodeMap), own, MarksOf(children, currentFile));
      foundFiles := true;
      v := Rooted(root);
    }

    /** A file-system change: the tree is rebuilt from a fresh snapshot and shown. */
    method RefreshFileTree(project: Snapshot)
      requires Valid()
      modifies this`nodeMap, this`foundFiles, this`view
      ensures Valid()
      ensures project.NoProject? ==> view == Placeholder && nodeMap == old(nodeMap) && foundFiles == old(foundFiles)
      ensures project.Project? ==>
        view == Rooted(project.root) && nodeMap == old(nodeMap) + RootMarks(project.root, currentFile) && foundFiles
    {
      view := BuildTreeNew(project);
      if project.Project? {
        RootMarksKeys(project.root, currentFile);
      }
    }

    /**
     * The code context of a question: empty until a project tree has been
     * built; otherwise, for every checked node of the shown tree in tree order,
     * its path, a separator, the file's text and a line break.
     */
    method GetCodeContents(read: string -> string) returns (code: string)
      ensures !foundFiles ==> code == ""
      ensures code == CodeContext(foundFiles, view, nodeMap, read)
    {
      if !foundFiles {
        return "";
      }
      var paths := CheckedPaths(view, nodeMap);
      var sb := "";
      for i := 0 to |paths|
        invariant sb == Blocks(paths[..i], read)
      {
        assert paths[..i + 1][..i] == paths[..i];
        sb := sb + paths[i] + PathSeparator;
        var text := read(paths[i]);
        sb := sb + text + "\n";
      }
      assert paths[..|paths|] == paths;
      code := sb;
    }
  }
}
