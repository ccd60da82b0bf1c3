# Workspace, project store and code view of the redesign app

This project models the core of a single-page app that redesigns a web
page. The user gives a URL and a chain of webhooks produces an HTML
document. The app reveals the document character by character in a code
view, then unlocks a preview and a chat. Each chat message asks a second
pair of webhooks for a refined document, and that document becomes a new
version of the project.

The model has three parts:

- `workspace.dfy`, module `Workspace`: the state machine of the
  `useWorkspace` hook.
  - The hook's state record is the class `Workspace.Workspace`. Each
    asynchronous continuation is a method of that class:
    - a webhook response arriving;
    - a 5 to 8 minute delay firing;
    - one tick of the reveal interval;
    - a tab click.
  - The hook's two timer refs are explicit fields:
    - `interval` is the running reveal;
    - `pending` is the suspended pipeline step, which includes the armed
      delay timeout.
  - The calls to `onCodeUpdate` and `onNewVersion` are recorded as
    sequences.
  - The `displayedCode` length that the pipeline's callbacks captured is
    stored in `pending`. The typing functions count from that stored
    length, as the source's closures do.
- `projects.dfy`, module `Projects`: the `useProjects` store.
  - The list transformations are pure functions.
  - The class `Projects.ProjectStore` holds `projects` and `currentProject`
    and reassigns them.
  - The invariant it keeps is:
    - project ids are distinct;
    - versions are numbered 1, 2, … in order;
    - version ids are distinct;
    - the current version exists.
- `editor.dfy`, module `Editor`: the pure helpers of the code view:
  - `escapeHtml`;
  - the line count, from the gutter and the "Ln" indicator;
  - the column of the "Col" indicator.
- `common.dfy` holds `Option` and `Result`.

Where the specification and the code disagree, the model follows the code:

- `startRedesign` locks both panels again at every run. The code does not
  keep panels unlocked once they have been unlocked.
- `finishTyping` does not set `fullCode`. The full code is the webhook A
  document.
- The stages are the code's own: `webhook-a` to `webhook-d`, `complete` and
  `chat-refine`. Nothing sets `complete` again after a refinement.
- `finishTyping` and the refine reveal count from the `displayedCode`
  length captured when the run started. That length is zero on a fresh
  workspace, so the reveal restarts from the first character rather than
  continuing with the remaining suffix.
- `sendChatMessage` does not check the chat lock itself.
- `finishTyping` on an empty document sets the progress to 100.

## Model

| member | source | states |
|---|---|---|
| Editor.EscapeHtml | src/components/CodeEditor.tsx:30-35 | The three global replacements in the source's order: `&`, then `<`, then `>`. What the result means is stated by the lemmas below. |
| Editor.EscapeHtmlIsPerCharacter | src/components/CodeEditor.tsx:30-35 | The three global replacements, `&` first, equal escaping each character on its own: `&` becomes `&amp;`, `<` becomes `&lt;`, `>` becomes `&gt;`, and every other character is kept. |
| Editor.EscapeHtmlAppend | src/components/CodeEditor.tsx:30-35 | Escaping a concatenation is the concatenation of the escaped parts. |
| Editor.AmpersandFirstMatters | src/components/CodeEditor.tsx:32-34 | The order of the replacements matters. Replacing `&` first turns `<` into `&lt;`. Replacing `&` last would double-escape it to `&amp;lt;`. |
| Editor.NoRawAngleBrackets | src/components/CodeEditor.tsx:30-35 | Escaped text never contains a raw `<` or `>`, so the highlighted code cannot inject markup. |
| Editor.EscapeHtmlLength | src/components/CodeEditor.tsx:32-34 | The escaped length is the input length plus 4 per `&` and 3 per `<` or `>`. |
| Editor.EscapeHtmlIdentity | src/components/CodeEditor.tsx:30-35 | Text without `&`, `<` or `>` is unchanged. |
| Editor.UnescapeEscapeHtml | src/components/CodeEditor.tsx:30-35 | Nothing is lost: decoding the three entities gives back the original text exactly. |
| Editor.Lines | src/components/CodeEditor.tsx:67 | `split('\n')` always yields at least one line, and no line contains a newline. |
| Editor.JoinLines | src/components/CodeEditor.tsx:67 | Joining the lines with newlines gives back the code. |
| Editor.LineCount | src/components/CodeEditor.tsx:67 | The gutter always has at least one row. |
| Editor.Column | src/components/CodeEditor.tsx:96 | "Col" is the length of the last piece of the split. Its meaning is stated by `Editor.ColumnIsTextAfterLastNewline`. |
| Editor.LineCountIsNewlinesPlusOne | src/components/CodeEditor.tsx:96 | The gutter rows and the "Ln" number are one more than the number of newlines. |
| Editor.ColumnIsTextAfterLastNewline | src/components/CodeEditor.tsx:96 | "Col" is the length of the text after the last newline. That text holds no newline, and it is preceded by a newline or starts the code. |
| Projects.Decimal | src/hooks/useProjects.ts:38 | The numeral is non-empty, has only digits, and starts with `0` exactly when the number is zero, so it has no leading zeros. |
| Projects.DefaultName | src/hooks/useProjects.ts:38 | `Project ` followed by the numeral of the count plus one. Its meaning is stated by `Projects.DefaultNameReadsBack`. |
| Projects.ParseDecimalOfDecimal | src/hooks/useProjects.ts:38 | The numeral that the template literal prints reads back as the number. |
| Projects.DefaultNameReadsBack | src/hooks/useProjects.ts:38 | The default name is `Project ` followed by the numeral of the project count plus one. |
| Projects.NewProject | src/hooks/useProjects.ts:36-50 | The new project has the given id and url and exactly one version. That version is numbered 1, empty, incomplete and current, so the project is well formed. The given name is used unless it is absent or empty; otherwise the default name is used. |
| Projects.CreateKeepsInvariant | src/hooks/useProjects.ts:52 | Appending a project whose id is fresh keeps the store invariant. |
| Projects.ProjectStore.constructor | src/hooks/useProjects.ts:7-8 | The store starts empty, with no open project. |
| Projects.ProjectStore.CreateProject | src/hooks/useProjects.ts:31-56 | Appends the new project, opens it and returns it. |
| Projects.Find | src/hooks/useProjects.ts:80 | `find` returns the first project with the id. It returns nothing exactly when no project has that id. |
| Projects.FindUnique | src/hooks/useProjects.ts:129 | With distinct ids, `find` returns the only project with that id. |
| Projects.UpdateVersions | src/hooks/useProjects.ts:61-66 | The version list keeps its length and every version keeps its id and number. Versions other than the current one are unchanged. The current one takes the code and the completion flag. |
| Projects.UpdateCode | src/hooks/useProjects.ts:59-70 | The list keeps its length, and projects with another id are unchanged. |
| Projects.UpdateCodeEffect | src/hooks/useProjects.ts:61-67 | In the matching project, only the current version's code and completion flag change. Every other version and every other field are unchanged. |
| Projects.UpdateCodeKeepsInvariant | src/hooks/useProjects.ts:58-70 | Updating the code keeps the store invariant. |
| Projects.ProjectStore.UpdateProjectCode | src/hooks/useProjects.ts:58-77 | The new list is the updated list. The open project is replaced by its updated copy only when it is the one updated. |
| Projects.AppendVersion | src/hooks/useProjects.ts:92-102 | The list keeps its length, and projects with another id are unchanged. |
| Projects.AddVersionTo | src/hooks/useProjects.ts:79-111 | Fails with "Project not found" exactly when no project has the id. Otherwise it returns a complete version holding the code, numbered one past the first matching project's version count, and appends it as current. |
| Projects.AddVersionEffect | src/hooks/useProjects.ts:84-99 | With distinct ids, adding to a project that exists succeeds. The project gains exactly that version, which becomes current, and nothing else in the project changes. |
| Projects.AddVersionKeepsInvariant | src/hooks/useProjects.ts:84-102 | A version with a fresh id keeps numbering, id distinctness and the current-version link. |
| Projects.ProjectStore.AddVersion | src/hooks/useProjects.ts:79-111 | On an unknown id the store is unchanged and the call fails with "Project not found". Otherwise the store takes the new list, refreshes the open project and returns the new version. |
| Projects.SwitchVersionIn | src/hooks/useProjects.ts:114-119 | The list keeps its length, and projects with another id are unchanged. In each matching project, the current version id becomes the given id and nothing else changes. |
| Projects.SwitchKeepsInvariant | src/hooks/useProjects.ts:113-119 | Switching to a version that the project has keeps the invariant. |
| Projects.SwitchToUnknownVersionBreaksInvariant | src/hooks/useProjects.ts:116 | The version id is not checked. Switching to an unknown id leaves a project whose current version does not exist. |
| Projects.ProjectStore.SwitchVersion | src/hooks/useProjects.ts:113-126 | The new list is the switched list, and the open project is refreshed when it is the one switched. |
| Projects.ProjectStore.LoadProject | src/hooks/useProjects.ts:128-132 | Returns the first project with the id and opens it. An unknown id leaves the open project as it was. |
| Projects.Remove | src/hooks/useProjects.ts:135 | The result is no longer than the input, and no remaining project has the id. |
| Projects.RemoveAppend | src/hooks/useProjects.ts:135 | Filtering works piece by piece, so the projects that stay keep their order. |
| Projects.RemoveEffect | src/hooks/useProjects.ts:135 | With distinct ids, deleting removes exactly the project with the id and keeps the others in order. An unknown id changes nothing. |
| Projects.RemoveKeepsInvariant | src/hooks/useProjects.ts:135 | Deleting keeps the store invariant. |
| Projects.ProjectStore.DeleteProject | src/hooks/useProjects.ts:134-140 | The new list is the filtered list. The open project is closed only when it is the deleted one. |
| Projects.Refreshed | src/hooks/useProjects.ts:73-76 | Another open project, or none, is kept. When the open project is the one changed, it becomes the changed copy found in the new list. If the new list has no project with that id, the open project is kept. |
| Workspace.CallWebhook | src/hooks/useWorkspace.ts:32-49 | Never fails. It yields the body of a 2xx response, and the fallback document on any other status or on an exception. |
| Workspace.TargetLength | src/hooks/useWorkspace.ts:184 | The target is the largest count whose share of the length does not exceed the percentage. It is at most the length, and equal to the length at 100. |
| Workspace.Progress | src/hooks/useWorkspace.ts:201 | The progress is a percentage proportional to the characters shown. It is 100 exactly when all characters are shown. |
| Workspace.ProgressIncreases | src/hooks/useWorkspace.ts:199-201 | Every tick strictly raises the progress. |
| Workspace.ClearTimeout | src/hooks/useWorkspace.ts:27-30 | Clearing the timers cancels an armed delay before webhook D or F and leaves any other pending step alone. |
| Workspace.Completed | src/hooks/useWorkspace.ts:223-232 | The completed record, shared by the immediate and the ticked end of `finishTyping` (also lines 255-262). It uses the whole document, progress 100, not typing, both panels unlocked, the preview tab and stage complete. The `FinishTyping`, `Tick` and `TickKeepingDelay` contracts use it. |
| Workspace.Workspace.IsProcessing | src/pages/Workspace.tsx:160 | The chat panel is processing exactly while the stage is chat-refine and typing is on. `Workspace.StaleRefineRun` and `Workspace.TwoRefinesRun` state it after a refinement. |
| Workspace.Workspace.constructor | src/hooks/useWorkspace.ts:12-22 | The initial state: code tab, zero progress, both panels locked, not typing, empty code and chat, stage initial. |
| Workspace.Workspace.SetTab | src/hooks/useWorkspace.ts:363-367 | A locked preview or chat tab is refused. Otherwise the tab changes. Nothing else changes. |
| Workspace.Workspace.StartRedesign | src/hooks/useWorkspace.ts:269-278 | Empty code, zero progress, typing, both panels locked, code tab, stage webhook-a. The chat and the full code are untouched. The currently displayed length is captured. |
| Workspace.Workspace.StartTyping | src/hooks/useWorkspace.ts:181-214 | Clears both timers. If the target is already reached, the prefix is shown and nothing ticks. Otherwise a reveal starts from the captured length and `fullCode` becomes the document. |
| Workspace.Workspace.FinishTyping | src/hooks/useWorkspace.ts:216-266 | Clears both timers. If nothing is left to type, the run completes at once and `onCodeUpdate(code, true)` is reported. Otherwise a finishing reveal up to the whole document starts. |
| Workspace.Workspace.Tick | src/hooks/useWorkspace.ts:198-264 | As written: one more character is shown and the progress follows it. The final tick stops typing, completes a finishing reveal and reports it, and clears the timers, which cancels an armed delay. |
| Workspace.Workspace.TickKeepingDelay | src/hooks/useWorkspace.ts:205-213 | The intended tick: the same as `Tick`, but stopping the reveal leaves the pending delay alone. |
| Workspace.Workspace.OnWebhookA | src/hooks/useWorkspace.ts:281-286 | Stage webhook-b. The document becomes the full code, and the 75 % reveal starts from the captured length. |
| Workspace.Workspace.OnWebhookB | src/hooks/useWorkspace.ts:289-291 | Stage webhook-c. |
| Workspace.Workspace.OnWebhookC | src/hooks/useWorkspace.ts:294-299 | The delay before webhook D is armed, and nothing visible changes. |
| Workspace.Workspace.OnDelayBeforeD | src/hooks/useWorkspace.ts:299-300 | Stage webhook-d. |
| Workspace.Workspace.OnWebhookD | src/hooks/useWorkspace.ts:303-306 | `finishTyping` on the final document, from the captured length. The run is then no longer pending. |
| Workspace.Workspace.SendChat | src/hooks/useWorkspace.ts:310-324 | Exactly one user message is appended. Stage chat-refine, code tab, typing. The locks are untouched, and the displayed length is captured. |
| Workspace.Workspace.OnWebhookE | src/hooks/useWorkspace.ts:327-333 | The delay before webhook F is armed. |
| Workspace.Workspace.OnDelayBeforeF | src/hooks/useWorkspace.ts:335-337 | Webhook F is called. |
| Workspace.Workspace.OnWebhookF | src/hooks/useWorkspace.ts:337-359 | As written: one assistant message with the fixed reply is appended. The code is reset and the full code replaced. A full reveal starts from the captured length, and `onNewVersion` is reported once. A document no longer than that length is shown at once, and typing stays set. |
| Workspace.Workspace.OnWebhookFFromReset | src/hooks/useWorkspace.ts:347-359 | The intended refine step: the reveal of the whole new document starts from the reset (empty) code. An empty document starts no reveal. Afterwards typing goes on exactly while the reveal runs. |
| Workspace.DelayCancelledRun | src/hooks/useWorkspace.ts:205-213 | As written: when webhook C answers before the 75 % reveal ends, the last tick cancels the delay. The run stays at webhook-c, locked, with nothing pending. |
| Workspace.FailingGatewayRun | src/hooks/useWorkspace.ts:268-308 | With the intended tick, a run whose every webhook call fails ends complete on the fallback document. This holds for a document of any length, even when webhook C answers before the reveal ends. Exactly one `onCodeUpdate(doc, true)` is reported. |
| Workspace.StaleRefineRun | src/hooks/useWorkspace.ts:185-191 | As written: after a completed run, a refinement to a document of the same length takes the early return. The chat stays processing, and nothing ticks. |
| Workspace.TwoRefinesRun | src/hooks/useWorkspace.ts:310-361 | With the intended refine step, two refinements in a row each end with the chat available. The chat holds user, assistant, user, assistant, and two versions are reported in order. |

## Left out

- Network I/O. `fetch`, its JSON request bodies and the webhook URLs are not modelled. A call's outcome is a `Response` parameter: a status and a body, or an exception.
- The mock document. `getMockHtml` is not part of this model. The fallback document is a constructor parameter of `Workspace.Workspace`.
- Timer pacing. Interval periods, the 5 to 8 minute `Math.random` delays and wall-clock time are not modelled. Each firing is an event method, called in whatever order a scenario chooses.
- The results of webhooks B, C and E only feed the next request's payload. They change no state, so their methods take no response.
- The URL of `startRedesign` only goes into webhook A's payload, so `Workspace.Workspace.StartRedesign` takes no URL.
- React machinery is not modelled beyond the captured `displayedCode` length:
  - re-renders;
  - the order in which batched `setState` updates apply;
  - other stale closures;
  - the unmount cleanup (src/hooks/useWorkspace.ts:369-371).
- Workspace.Workspace.StartRedesign: overlapping runs are not modelled. It requires that no other pipeline step is pending.
- Workspace.Workspace.SendChat: the same holds. It also requires a non-empty message that is not sent while processing, which is what the chat panel guarantees (src/components/ChatPanel.tsx:24). Whitespace trimming is not modelled.
- Chat message timestamps are not modelled, and message ids are parameters.
- Workspace.TargetLength, Workspace.Progress, Workspace.Workspace.Tick and Editor.Column: lengths and cut points are counted in characters (Unicode scalar values), not UTF-16 code units as JavaScript's `length` and `slice` count them. On text with characters outside the Basic Multilingual Plane, the target, the progress values, the revealed prefixes and "Col" therefore differ. The fallback document holds three such emoji (src/hooks/useWorkspace.ts:162, 167, 172). A JavaScript slice can also split a surrogate pair, which a Dafny string cannot hold.
- Workspace.Progress: the progress is an exact real rather than a floating-point number, so rounding of `index / len * 100` is not modelled.
- Workspace.TargetLength: it is integer division. It agrees with `Math.floor` of the floating-point product for the two shares the hook uses (75 and 100), not for every share.
- The rounding of the displayed percentage (`Math.round`) is not modelled.
- `highlightCode`, the regular-expression syntax colouring, is not modelled. Only its escaping step is.
- The JSX components are not modelled.
- The wiring of `onCodeUpdate` and `onNewVersion` to `updateProjectCode` and `addVersion` (src/pages/Workspace.tsx:34-44) is not modelled. The workspace records those calls, and the store models each operation on its own.
- Local storage, JSON (de)serialisation, `Date` revival and the `createdAt`/`updatedAt` timestamps are not modelled. `Projects.ProjectStore.constructor` starts empty rather than loading stored projects.
- Projects.ProjectStore.CreateProject: `crypto.randomUUID()` values are parameters. It requires a project id not yet in the store, which a UUID is assumed to give.
- Projects.ProjectStore.AddVersion: the same holds for the new version id.
- Projects.ProjectStore.SwitchVersion: it requires the version to exist in the project, because the version history only offers existing versions. The source does not check this, and `Projects.SwitchToUnknownVersionBreaksInvariant` shows what happens without the requirement.

## Findings

| source | as written | input that shows it | evidently intended | confidence | as-written member | corrected member |
|---|---|---|---|---|---|---|
| src/hooks/useWorkspace.ts:210 | The last tick of the 75 % reveal calls `clearTypingTimers`. That also clears `typingTimeoutRef`, which holds the delay before webhook D (armed at line 299) once webhook C has answered. | A two-character fallback document where every call fails and webhook C answers before the one-character reveal ends. The ticks of a real document take minutes, while B and C take seconds. | Ending the reveal stops only the interval. Webhook D is called after the delay, and the run completes and unlocks the panels. | high, not executed | Workspace.Workspace.Tick, shown by Workspace.DelayCancelledRun (stage webhook-c, locked, nothing pending) | Workspace.Workspace.TickKeepingDelay, used by Workspace.FailingGatewayRun (complete on the fallback document) |
| src/hooks/useWorkspace.ts:356 | The refine reveal calls the `startTypingAnimation` closure. That closure counts from the `displayedCode` captured when the message was sent (line 185), not from the empty code just set at line 350. | After a completed run showing "ab", a refinement whose webhook fails returns "ab" again. The target 2 is not greater than the captured 2, so the early return at lines 188-191 runs. `isTyping` stays true and the stage stays chat-refine, so `isProcessing` (src/pages/Workspace.tsx:160) stays true and chat input is refused for good. | The refined document is typed from its first character, and typing ends when the reveal ends. | high, not executed | Workspace.Workspace.OnWebhookF, shown by Workspace.StaleRefineRun | Workspace.Workspace.OnWebhookFFromReset, used by Workspace.TwoRefinesRun |
