# MyMark tool-window panel, modelled in Dafny

MyMark is an IDE side panel. The developer picks project files in a checkbox
tree, chooses a module and an exercise, and asks a remote tutoring service a
question. The question is sent with the checked files' contents and the
conversation so far. This project models the panel's state machine
(`MyMarkToolWindowContent`) and proves what its event handlers do.

- `api.dfy`: `Option`, the `Message` and `Question` values of the wire
  protocol, and `Response<T>`. A `Response<T>` is how one asynchronous call
  resolves: `Ok(body)` (2xx), `ServerError` (non-2xx) or `NetworkFailure`.
- `message_log.dfy`: `RemoveFirst`, the `ArrayList.remove(element)` that
  retracts a failed question, and what a retraction does to the log.
- `file_selection.dfy`: the file-tree snapshot, the writes a rebuild makes to
  the node map, the checked-node query, the code context, and the check moves
  of a focus change. These are pure functions, with lemmas about them.
- `panel.dfy`: class `Panel`. Its fields are the panel's fields and widget
  states. Each event is a method: sending, each callback, a module change,
  a focus change, a tree rebuild. The recursive tree build and the code-context
  loop are imperative methods. Each is proved against the functions of
  `file_selection.dfy`. `Valid()` is the object invariant:
  - each dropdown's selection is one of its items;
  - Send is never enabled while an answer is awaited;
  - every node of the shown tree is registered in the node map.
- `flows.dfy`: event sequences as the repository's tests drive them. Each
  callback runs right after the request that it answers.

Each asynchronous call is split in two. The method that issues the call returns
the request (`SendMessage` returns the `Question`; `UpdateExercises` returns
the module whose exercises it fetches). A separate method is the callback
(`OnAnswer`, `OnModules`, `OnExercises`). The question callback captures the
user message it was created with. `OnAnswer` receives that message as its
`asked` argument, so every in-flight question keeps its own message.

The model follows the code, including where it behaves in ways a reader may not expect:

- A resolved question re-enables Send unconditionally. This holds even when the
  exercise list has meanwhile become `["Connection Error"]`. After an exercise
  transport failure, "Connection Error" stays selected and passes the send guard.
- A failed question removes the first log entry equal to the user message,
  because `Message` is a data class. If the same question was asked earlier,
  the earlier copy is removed and the log is reordered (`RetractRepeatedReorders`).
- Changing the module shows `["Loading..."]` but leaves Send as it was.
- Losing the editor focus records "no file" but unchecks nothing. The next
  focused file therefore cannot uncheck the old one (`UnfocusLeavesOldCheck`).
- The checked-node query of the checkbox tree (IntelliJ's `CheckboxTree.getCheckedNodes`)
  reports checked leaf nodes only, that is files and empty directories. A
  checked directory with children never contributes to the code context.
- A rebuild without a project shows a stand-in node, "no project found", which
  is checked by default. If files were found earlier, the model puts that path
  in the code context, with whatever `read` returns for it. In the code,
  reading that file fails at this point. Sending then stops after echoing the
  question, clearing the input and disabling Send: nothing is logged and no
  request is made.

## Model

| member | source | states |
|---|---|---|
| `MessageLog.RemoveFirst` | src/main/kotlin/com/segp_17/mymark/MyMarkToolWindowFactory.kt:275 | removing an element drops its first occurrence, at `IndexOf`, and leaves the log alone when the element is absent |
| `MessageLog.RetractKeepsElements` | src/main/kotlin/com/segp_17/mymark/MyMarkToolWindowFactory.kt:262-283 | appending a message and then removing it gives back the old log's elements, counted with multiplicity |
| `MessageLog.RetractFreshRestores` | src/main/kotlin/com/segp_17/mymark/MyMarkToolWindowFactory.kt:262-283 | when the message was not in the log before, append-then-remove restores the log exactly |
| `MessageLog.RetractAppended` | src/main/kotlin/com/segp_17/mymark/MyMarkToolWindowFactory.kt:262-283 | a failed question leaves the log with its pre-send length and elements, and exactly the same when the question was new |
| `MessageLog.RetractRepeatedReorders` | src/main/kotlin/com/segp_17/mymark/MyMarkToolWindowFactory.kt:275 | when the same message occurs earlier and the log does not end with it, the retraction does not restore the log; the retracted message stays last |
| `FileSelection.MarksMeaning` | src/main/kotlin/com/segp_17/mymark/MyMarkToolWindowFactory.kt:354-368 | building a subtree registers exactly its paths, each checked iff it is the focused file |
| `FileSelection.MarksOfMeaning` | src/main/kotlin/com/segp_17/mymark/MyMarkToolWindowFactory.kt:362-365 | the same for the children built in the child loop |
| `FileSelection.RootMarksKeys` | src/main/kotlin/com/segp_17/mymark/MyMarkToolWindowFactory.kt:340-347 | a rebuild registers exactly the tree's paths |
| `FileSelection.RebuildChecksOnlyFocus` | src/main/kotlin/com/segp_17/mymark/MyMarkToolWindowFactory.kt:340-368 | after a rebuild the root is unchecked and every other node is checked iff its path is the focused file |
| `FileSelection.Selected` | src/main/kotlin/com/segp_17/mymark/MyMarkToolWindowFactory.kt:386 | filtering a path list by the node map keeps checked paths only, and every one of them; the query applies it to the tree's leaf paths |
| `FileSelection.LeafPathsWithin` | src/main/kotlin/com/segp_17/mymark/MyMarkToolWindowFactory.kt:354-368 | the leaves the query visits are nodes the build created: as multisets, a tree's leaf paths are contained in its paths |
| `FileSelection.LeafPathsOfWithin` | src/main/kotlin/com/segp_17/mymark/MyMarkToolWindowFactory.kt:362-365 | the same for the children built in the child loop |
| `FileSelection.LeafPathsAreNodes` | src/main/kotlin/com/segp_17/mymark/MyMarkToolWindowFactory.kt:354-368 | every leaf path is a registered path, and leaf paths do not repeat when the tree's paths do not |
| `FileSelection.SelectedNone` | src/main/kotlin/com/segp_17/mymark/MyMarkToolWindowFactory.kt:386 | with nothing checked, the query returns nothing |
| `FileSelection.SelectedSingle` | src/main/kotlin/com/segp_17/mymark/MyMarkToolWindowFactory.kt:386 | with distinct paths and exactly `p` checked, the query returns `[p]` (or nothing when `p` is absent) |
| `FileSelection.BlocksAppend` | src/main/kotlin/com/segp_17/mymark/MyMarkToolWindowFactory.kt:387-394 | the code context of concatenated path lists is the concatenation of their contexts, block by block |
| `FileSelection.RebuildChecksExactly` | src/main/kotlin/com/segp_17/mymark/MyMarkToolWindowFactory.kt:340-368 | after a rebuild focused on a non-root path `p` of a tree without repeated paths, every node is registered and exactly `p` is checked, whatever the map held before |
| `FileSelection.ContextAfterRebuild` | src/main/kotlin/com/segp_17/mymark/MyMarkToolWindowFactory.kt:333-395 | after a rebuild focused on a non-root leaf `p` (a file, or an empty directory), the context is exactly `p`, three line breaks, `p`'s text and a line break, whatever the node map held before |
| `FileSelection.ContextAfterRebuildUnfocused` | src/main/kotlin/com/segp_17/mymark/MyMarkToolWindowFactory.kt:333-395 | after a rebuild with no focused file, the context is empty |
| `FileSelection.Refocus` | src/main/kotlin/com/segp_17/mymark/MyMarkToolWindowFactory.kt:298-309 | a focus change keeps the registered paths, checks the new file's node, unchecks the old file's node, touches no other node, and changes nothing when no file is focused |
| `FileSelection.RebuildEstablishesOnlyFocus` | src/main/kotlin/com/segp_17/mymark/MyMarkToolWindowFactory.kt:340-368 | after a rebuild only the focused file can be checked among the tree's paths |
| `FileSelection.RefocusKeepsOnlyFocus` | src/main/kotlin/com/segp_17/mymark/MyMarkToolWindowFactory.kt:298-306 | focusing a file preserves "only the focused file is checked" |
| `FileSelection.UnfocusLeavesOldCheck` | src/main/kotlin/com/segp_17/mymark/MyMarkToolWindowFactory.kt:298-309 | for any registered paths a and b, focusing a, then no file, then b leaves both a and b checked |
| `ToolWindow.Panel.constructor` | src/main/kotlin/com/segp_17/mymark/MyMarkToolWindowFactory.kt:72-140 | a new panel has an empty log and transcript, both lists `["Loading..."]` with that entry selected, Send disabled, the focused file recorded and the tree built |
| `ToolWindow.Panel.UpdateExercises` | src/main/kotlin/com/segp_17/mymark/MyMarkToolWindowFactory.kt:207-244 | a fetch for the selected module is issued iff the module list is non-empty and does not start with "Connection Error"; otherwise exercises become `["Connection Error"]` (modules non-empty) or `[]`; Send untouched |
| `ToolWindow.Panel.OnExercises` | src/main/kotlin/com/segp_17/mymark/MyMarkToolWindowFactory.kt:210-233 | success: exercises := body, first selected, Send enabled iff body non-empty and no answer awaited; non-2xx or failure: `["Connection Error"]`, Send disabled |
| `ToolWindow.Panel.OnModules` | src/main/kotlin/com/segp_17/mymark/MyMarkToolWindowFactory.kt:172-204 | success with modules: modules := body, first selected, cascade into UpdateExercises; non-2xx, empty list or failure: both lists `["Connection Error"]`, Send disabled, no fetch |
| `ToolWindow.Panel.ModuleChanged` | src/main/kotlin/com/segp_17/mymark/MyMarkToolWindowFactory.kt:99-104 | picking a module selects it, shows `["Loading..."]` for exercises, and fetches them unless the module list starts with "Connection Error" |
| `ToolWindow.Panel.SendMessage` | src/main/kotlin/com/segp_17/mymark/MyMarkToolWindowFactory.kt:251-268 | without text, module or exercise nothing changes and no request is made; otherwise "User: text" is appended, the input cleared, Send disabled, the user message appended last, the request carries the code context and the whole log, and the panel waits |
| `ToolWindow.Panel.Submit` | src/main/kotlin/com/segp_17/mymark/MyMarkToolWindowFactory.kt:108-121 | the button and Enter submit only while Send is enabled, so a question is issued only when no answer is awaited; an issued question has every effect of `SendMessage`: transcript line, cleared input, Send disabled, user message appended, request built from the code context and the log |
| `ToolWindow.Panel.OnAnswer` | src/main/kotlin/com/segp_17/mymark/MyMarkToolWindowFactory.kt:269-288 | success appends the assistant message and the answer line; non-2xx or failure removes the first entry equal to the asked message and appends the error line; both end the wait and enable Send |
| `ToolWindow.Panel.FocusChanged` | src/main/kotlin/com/segp_17/mymark/MyMarkToolWindowFactory.kt:292-310 | records the focused file and moves the checks as `Refocus` says |
| `ToolWindow.Panel.BuildTreeHelper` | src/main/kotlin/com/segp_17/mymark/MyMarkToolWindowFactory.kt:354-368 | the recursive build overrides the node map with the subtree's writes (`Marks`) |
| `ToolWindow.Panel.BuildTreeNew` | src/main/kotlin/com/segp_17/mymark/MyMarkToolWindowFactory.kt:333-351 | no project: the stand-in node, nothing registered; otherwise root registered unchecked, children built, old entries kept, files found |
| `ToolWindow.Panel.RefreshFileTree` | src/main/kotlin/com/segp_17/mymark/MyMarkToolWindowFactory.kt:375-379 | the rebuilt tree is shown and the panel invariant is kept |
| `ToolWindow.Panel.GetCodeContents` | src/main/kotlin/com/segp_17/mymark/MyMarkToolWindowFactory.kt:382-395 | empty before any project tree was built; otherwise the concatenated blocks of the checked leaf paths in tree order |
| `PanelFlows.SendAndResolve` | src/test/kotlin/com/segp_17/mymark/MyMarkToolWindowFactoryTest.kt:273-372 | send then resolve: success grows the log by exactly the user then assistant message; failure restores its length and elements (and the log itself for a new question); the failed log is exactly `RemoveFirst` of the appended log; the transcript shows the question; Send is enabled again; with nothing to send, log, transcript, input, Send and the wait flag are unchanged; lists, selections, node map, view and focus are untouched |
| `PanelFlows.ReloadLists` | src/test/kotlin/com/segp_17/mymark/MyMarkToolWindowFactoryTest.kt:134-271 | reload then resolve: both lists follow the responses; Send ends enabled only when both lists arrived, the exercise list is non-empty and no answer is awaited, except that a module list starting with "Connection Error" leaves Send as it was; each failure sets both selections as its handler does ("Connection Error", or none after a non-2xx exercise response); log, transcript, node map, view and focus are untouched |

## Left out

- Swing layout and rendering are not modelled: `gridBagConstraints`, the component layout and the tree cell renderer.
- Widget models are plain state. When a dropdown's model is replaced and the code sets no selection, the model assumes the list's first item is selected, or none when the list is empty (`DefaultSelection`).
- Listener re-entrancy is not modelled. Setting the module dropdown's model or selection can fire the module-change listener again; only the explicit calls are modelled.
- Requests are not modelled: the Retrofit client, `ApiService` and JSON decoding. Each call's outcome is an input `Response`, so a 2xx response without a body (where `body()!!` throws) is not represented.
- `updateModules` and the Reload button only issue a request; their callbacks are `OnModules`.
- The IDE listeners are not modelled. The file-editor and file-system listeners (ToolWindowListeners.kt), with their event-kind filter, are replaced by direct calls to `FocusChanged` and `RefreshFileTree`.
- A missing `FileEditorManager` is treated like "no file focused". Both record no focused file and uncheck nothing.
- The checked-node query is library code. The model takes it to report checked leaves in pre-order, each with its path as its user object.
- File-system enumeration is not modelled: the tree arrives as a `Snapshot`. File reading is the parameter `read`, and its exceptions are not modelled, such as reading a directory or the stand-in "no project found".
- Nodes are identified by their path. `nodeMap` is a map from path to checked state, which is exact when paths are unique, as they are in a file system. The nodes' display names are not modelled.
- The user's own checkbox clicks are not modelled (the checkbox tree's check policy is library behaviour). The lemmas hold for any prior node-map contents.
- Asynchrony is not modelled: callbacks arrive one at a time, in any order the caller chooses. A question callback is paired with its request only through `asked`. Nothing bounds how many callbacks arrive, and there are no timeouts.
- The transcript is one string (the chat area's text); scrolling and wrapping are not modelled.
