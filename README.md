# MCP agent console — a Dafny model

The system is a console for MCP agents. An agent is a named process definition: a command, its arguments and an environment.

- The backend is a FastAPI service over SQLite. Its `MCPAgentService` stores agents in the `mcp_agents` table. Each create call also stores one batch record in `agent_files`: the batch's file name and the comma-separated ids of its agents. The service also lists, updates and deletes agents.
- The frontend is a Next.js application with four components that hold state:
  - the `@`-mention box;
  - the create/edit dialog, which holds a batch of drafts;
  - the agent list, grouped by batch file;
  - the chat panel, which either talks to an agent over a WebSocket or simulates replies locally.

The project models these five pieces:

| file | models |
|---|---|
| `base.dfy` | Options, results and sequence helpers: filter, count, distinctness, flatten |
| `text.dfy` | JavaScript word and space characters, `trim`, ASCII lower case, `includes`, decimal text, join and split |
| `records.dfy` | The frontend agent record, its group key and the group label built from a batch file name |
| `mention_input.dfy` | Module `MentionInput`: the mention query, the candidate filter, arrow-key stepping, the mention splice, and the class `MentionBox` for the component state |
| `add_agent_modal.dfy` | Module `AgentForm`: drafts, field updates, the validator, the payloads, and the class `DraftEditor` for the dialog state |
| `agent_listing.dfy` | Module `Listing`: grouping (as a `forEach` loop over the agents), group labels, the sequential group delete, start-button rules, and the class `AgentList` |
| `chat_interface.dfy` | Module `Chat`: mention extraction, the simulated reply, message routing, and the class `ChatSession` for the socket state machine and message log |
| `mcp_agent_service.dfy` | Module `Registry`: the two tables as sequences in rowid order, and the class `Service` whose methods are the service's operations |

**How the model treats state.** Stateful components are classes whose methods change the fields they name in `modifies`. Each method's `ensures` ties the new state to functions of the old state. The properties the code promises are proved about those functions as lemmas.

**How the model treats the outside world.** Everything the code takes from outside becomes a parameter:
- fresh ids from `Date.now()`;
- the timestamp;
- the caret position;
- HTTP replies;
- inbound socket frames.

Socket events are separate methods (`OnOpen`, `OnMessage`, `OnClose`). A reply timer is modelled as a queue of pending replies that `ReplyTimerFired` drains.

**Database behaviour.**
- A new SQLite rowid is the largest existing one plus one, or 1 in an empty table.
- `.first()`, `offset` and `limit` follow rowid order.
- A negative offset counts as 0, and a negative limit means no limit.

**Behaviour the model reproduces as written:**
- On opening, the dialog focuses tab `"0"` in create mode too, while the blank draft carries a fresh id.
- The chat dials a socket with the agent's `file_id`, and the greeting looks that number up among agent ids. It can greet a different agent (`Chat.GreetingUsesAgentId`).
- The socket handle is set only when the socket opens. A second connect made while the first is still connecting leaves the first open.
- `update_agent` and `get_agent` work on `agent_files` rows. Only `name` is a stored column there. The other supplied fields become plain attributes. Writing the per-agent configuration then fails unless `command`, `args` and `env` were all supplied (`Registry.UpdateWritesConfigIff`).
- `get_agents` finds an agent's batch with `LIKE '%<id>%'`. An id that appears as a substring of another id's digits can attach the wrong batch (`Registry.ListedWithWrongBatch`).
- The listing groups agents in a plain object. A batch file named after an `Object.prototype` property, such as `constructor`, makes the grouping throw (`Listing.GroupAgents`). `update_agent` can give a batch file any name.

## Model

| member | source | states |
|---|---|---|
| Records.GroupKey | frontend/components/agent-listing.tsx:47 | The key is the file name when it is present and non-empty, otherwise `Ungrouped` |
| Records.StripJson | frontend/components/chat-interface.tsx:45-47 | A trailing `.json` is removed and nothing else: the result plus `.json` is the name; a name without the suffix is returned unchanged |
| Records.LastFourDigits | frontend/components/chat-interface.tsx:50-51 | The result is empty exactly when the text does not end in four digits; otherwise it is those four digits, a suffix of the text |
| Records.GroupedLabel | frontend/components/agent-listing.tsx:227-240 | Every label starts with `Grouped Agent ` and is followed by either nothing or exactly four characters |
| Records.GroupedLabelExample | frontend/components/agent-listing.tsx:227-240 | `batch0001.json` is labelled `Grouped Agent 0001` |
| Records.GroupedLabelCollides | frontend/components/agent-listing.tsx:227-240 | Two different file names with the same last four digits share a label |
| Records.GroupedLabelNoDigits | frontend/components/agent-listing.tsx:236-239 | A file name without four trailing digits gets the bare prefix |
| Records.GroupedLabelDigits | frontend/components/agent-listing.tsx:227-240 | Any stem followed by four digits, with or without `.json`, is labelled by exactly those digits |
| Text.Contains | frontend/components/mention-input.tsx:60-61 | `includes` holds exactly when the needle occurs at some offset |
| Text.TrimEmptyIff | frontend/components/add-agent-modal.tsx:159 | `trim()` yields the empty string exactly when the text is all white space |
| Text.SplitJoin | backend/app/services/mcp_agent_service.py:123 | Splitting a join of pieces free of the separator gives back the pieces |
| Text.ParseNat | backend/app/services/mcp_agent_service.py:123 | A piece parses exactly when it is a non-empty string of decimal digits |
| Text.ParseDecimal | backend/app/services/mcp_agent_service.py:123 | `int()` of a number's decimal text gives back that number |
| MentionInput.WordRunStart | frontend/components/mention-input.tsx:79 | The backward scan stops at the start of the longest run of word characters ending at the caret |
| MentionInput.ActiveToken | frontend/components/mention-input.tsx:79 | The match of `@(\w*)$` starts at an `@` followed only by word characters, and it is the only such position |
| MentionInput.MentionQuery | frontend/components/mention-input.tsx:78-82 | A query is made only of word characters |
| MentionInput.MentionQueryIff | frontend/components/mention-input.tsx:78-86 | Suggestions are shown for key `k` exactly when the text before the caret ends with `@k` and `k` is made of word characters (both directions) |
| MentionInput.MentionQuerySound | frontend/components/mention-input.tsx:78-82 | When a key is reported, the text before the caret ends with `@` followed by that key |
| MentionInput.MentionQueryComplete | frontend/components/mention-input.tsx:78-82 | Every text ending in `@` plus word characters before the caret is reported with that key |
| MentionInput.CandidatesExact | frontend/components/mention-input.tsx:55-67 | An agent is a candidate exactly when it is listed and the key is empty or matches its name or type case-insensitively; candidates keep list order |
| MentionInput.EmptyKeyMatchesAll | frontend/components/mention-input.tsx:56-67 | The empty key matches every agent, so the two branches of the filter effect agree |
| MentionInput.StepDown | frontend/components/mention-input.tsx:124 | Arrow-down moves one place only when a next candidate exists and stays in range |
| MentionInput.StepUp | frontend/components/mention-input.tsx:127 | Arrow-up moves one place unless already at 0, and stays in range |
| MentionInput.SpliceMention | frontend/components/mention-input.tsx:89-95 | A splice is made exactly when a mention token ends at the caret |
| MentionInput.SpliceMentionReplacesToken | frontend/components/mention-input.tsx:89-103 | The token `@key` is replaced by `@name ` and the rest of the text is kept; the caret lands right after the inserted space, at the token start plus the name length plus 2 |
| MentionInput.ClearedValueSplicesNothing | frontend/components/mention-input.tsx:89-95 | After the parent clears the text, no token is active at any stored cursor, so inserting a mention leaves the text alone |
| MentionInput.MentionBox.constructor | frontend/components/mention-input.tsx:30-36 | After mounting: empty key, list hidden, index 0, candidates equal to all agents |
| MentionInput.MentionBox.Refilter | frontend/components/mention-input.tsx:55-68 | Candidates are recomputed from the key; a non-empty key resets the highlight to 0 and the empty key keeps it |
| MentionInput.MentionBox.SetAgents | frontend/components/mention-input.tsx:39-68 | New agents from the parent re-run the filter effect |
| MentionInput.MentionBox.SetValue | frontend/components/mention-input.tsx:11-12 | The parent's write to the controlled `value` prop changes the text and nothing else: the key, the list, the stored cursor and the highlight are kept |
| MentionInput.MentionBox.InputChange | frontend/components/mention-input.tsx:70-87 | Value and caret are stored; the list shows exactly when a query exists; the key is updated only then; the highlight resets when the key changes to a non-empty one |
| MentionInput.MentionBox.InsertMention | frontend/components/mention-input.tsx:89-111 | The value becomes the splice (or stays when no token ends at the stored caret), the new caret is reported, and the list is hidden |
| MentionInput.MentionBox.CommitHighlighted | frontend/components/mention-input.tsx:114-134 | Commits the highlighted candidate, or reports a fault with nothing changed when the index is past the end of a shrunken list |
| MentionInput.MentionBox.KeyDown | frontend/components/mention-input.tsx:113-137 | Covers every key: Enter and Tab commit a candidate when the list is open and not empty; Enter otherwise submits; the arrows step the highlight; Escape hides the list; every other key changes nothing |
| AgentForm.FromRecord | frontend/components/add-agent-modal.tsx:44-57 | The edit draft has id `"0"` and copies the record's fields, with missing args or env read as empty |
| AgentForm.WithFieldFrame | frontend/components/add-agent-modal.tsx:110 | Setting one field changes only that field; the id and the other fields are kept |
| AgentForm.UpdateFieldKeepsOthers | frontend/components/add-agent-modal.tsx:109-111 | An update keeps every id and leaves drafts with another id untouched |
| AgentForm.UpdateFieldFound | frontend/components/add-agent-modal.tsx:109-117 | After an update, the draft found by the id is the previously found draft with the field set |
| AgentForm.FindDraft | frontend/components/add-agent-modal.tsx:115 | `find` returns the first draft with the id, or nothing exactly when no draft has it |
| AgentForm.RemoveAtExact | frontend/components/add-agent-modal.tsx:123-129 | `splice(i, 1)` removes exactly element `i` and keeps the others in order; an index past the end removes nothing |
| AgentForm.DraftErrors | frontend/components/add-agent-modal.tsx:159-167 | Each draft yields at most three messages |
| AgentForm.DraftErrorsEmptyIff | frontend/components/add-agent-modal.tsx:159-167 | A draft gets no message exactly when its name, type and command are all non-blank after trimming |
| AgentForm.PerDraft | frontend/components/add-agent-modal.tsx:158-168 | There is one message list per draft |
| AgentForm.FieldErrorsEmptyIff | frontend/components/add-agent-modal.tsx:158-168 | There are no field messages exactly when every draft is complete; there are at most three per draft |
| AgentForm.RepeatsEmptyIff | frontend/components/add-agent-modal.tsx:171-172 | The `indexOf` filter finds no repeats exactly when the trimmed names are pairwise distinct |
| AgentForm.ValidationIff | frontend/components/add-agent-modal.tsx:155-178 | Validation passes exactly when every draft is complete and the trimmed names are distinct; there are at most 3n+1 messages |
| AgentForm.ValidationCollectsAll | frontend/components/add-agent-modal.tsx:158-168 | Every blank field of every draft is reported under its 1-based number, not only the first failure |
| AgentForm.DuplicateTrimmedNames | frontend/components/add-agent-modal.tsx:170-175 | Two complete drafts with equal trimmed names give exactly one message, the duplicate-names message |
| AgentForm.TrimmedNamesAgree | frontend/components/add-agent-modal.tsx:171 | `x` and `x ` trim to the same name |
| AgentForm.PayloadOmitsOnlyEmpty | frontend/components/add-agent-modal.tsx:203-231 | Payloads copy name, type, command and active flag; they omit args or env exactly when those are empty, so filling omitted fields with empty values restores the draft |
| AgentForm.Batch | frontend/components/add-agent-modal.tsx:224-231 | The create request has one payload per draft |
| AgentForm.PlanSubmitShape | frontend/components/add-agent-modal.tsx:180-233 | Nothing is sent exactly when validation fails; edit mode updates the edited record's id from the first draft; create mode sends one payload per draft, in order |
| AgentForm.DraftEditor.constructor | frontend/components/add-agent-modal.tsx:43-63 | Opens with one draft (the record's copy, or a blank draft) and tab `"0"` |
| AgentForm.DraftEditor.Open | frontend/components/add-agent-modal.tsx:43-63 | Re-opening resets the drafts the same way |
| AgentForm.DraftEditor.AddNewAgent | frontend/components/add-agent-modal.tsx:75-79 | Appends a blank draft with the fresh id and focuses it |
| AgentForm.DraftEditor.DuplicateAgent | frontend/components/add-agent-modal.tsx:81-90 | Keeps the old drafts and appends a copy with the fresh id and `-copy` added to the name; the copy is focused |
| AgentForm.DraftEditor.RemoveAgent | frontend/components/add-agent-modal.tsx:92-107 | Removes the drafts with the id and never leaves the list empty: a removed last draft is replaced by a blank one. Removing the focused tab focuses the first remaining draft |
| AgentForm.DraftEditor.SelectTab | frontend/components/add-agent-modal.tsx:263 | Focuses the chosen tab |
| AgentForm.DraftEditor.UpdateAgentField | frontend/components/add-agent-modal.tsx:109-111 | Sets the field on every draft with the id; the list stays non-empty |
| AgentForm.DraftEditor.SetNewArg | frontend/components/add-agent-modal.tsx:393 | Stores the argument box text |
| AgentForm.DraftEditor.SetNewEnvKey | frontend/components/add-agent-modal.tsx:434 | Stores the env key box text |
| AgentForm.DraftEditor.SetNewEnvValue | frontend/components/add-agent-modal.tsx:437 | Stores the env value box text |
| AgentForm.DraftEditor.AddArg | frontend/components/add-agent-modal.tsx:113-121 | A non-blank argument is appended trimmed to the found draft and the box is cleared; otherwise nothing changes |
| AgentForm.DraftEditor.RemoveArg | frontend/components/add-agent-modal.tsx:123-130 | Removes one argument of the found draft by index |
| AgentForm.DraftEditor.AddEnv | frontend/components/add-agent-modal.tsx:132-144 | With both boxes non-blank, sets the trimmed key to the trimmed value and clears both boxes; otherwise nothing changes |
| AgentForm.DraftEditor.RemoveEnv | frontend/components/add-agent-modal.tsx:146-153 | Deletes the key from the found draft's environment |
| AgentForm.DraftEditor.CheckDraft | frontend/components/add-agent-modal.tsx:158-168 | One turn of the `forEach` pushes exactly that draft's messages |
| AgentForm.DraftEditor.ValidateAgents | frontend/components/add-agent-modal.tsx:155-178 | The loop returns exactly the validation messages, whose meaning `ValidationIff` gives |
| AgentForm.DraftEditor.Submit | frontend/components/add-agent-modal.tsx:180-233 | Sends exactly what `PlanSubmitShape` describes |
| Listing.GroupKeys | frontend/components/agent-listing.tsx:43-55 | The group keys are pairwise distinct |
| Listing.GroupKeysCover | frontend/components/agent-listing.tsx:43-55 | A key is a group exactly when some agent has it |
| Listing.MembersSnoc | frontend/components/agent-listing.tsx:46-52 | Pushing an agent adds it to its own group only |
| Listing.MembersEmptyIff | frontend/components/agent-listing.tsx:48-50 | A key has members exactly when it is a group key: no group is empty |
| Listing.ExactlyOneGroup | frontend/components/agent-listing.tsx:43-55 | Every agent is in the group of its key and in no other |
| Listing.GroupSizesSum | frontend/components/agent-listing.tsx:43-55 | The group sizes add up to the number of agents |
| Listing.GroupStep | frontend/components/agent-listing.tsx:46-52 | One turn of the `forEach` preserves the grouping invariant |
| Listing.GroupAgents | frontend/components/agent-listing.tsx:43-55 | The loop throws exactly when some agent's key is an inherited `Object.prototype` property name; otherwise it builds exactly one entry per key, in first-seen order, and each entry holds that key's members in list order |
| Listing.Visit | frontend/components/agent-listing.tsx:46-51 | One turn of the loop throws exactly when the agent's key is an inherited property name; otherwise the grouping extends to one more agent |
| Listing.JsonNamesNotInherited | frontend/components/agent-listing.tsx:47-50 | A file name ending in `.json`, the form of every batch file the service creates, never makes the grouping throw |
| Listing.GroupingExample | frontend/components/agent-listing.tsx:43-55 | Two agents of one file and one agent without a file make exactly two groups, with 2 and 1 members |
| Listing.GroupLabelUngroupedIff | frontend/components/agent-listing.tsx:227-240 | Only the `Ungrouped` key is headed `Ungrouped`; every other header starts with `Grouped Agent ` |
| Listing.AppendKeepsGroups | frontend/components/agent-listing.tsx:57-59 | After created agents are appended, each group's old members come first, then the new ones |
| Listing.ReplaceById | frontend/components/agent-listing.tsx:74-78 | Length is kept |
| Listing.ReplaceByIdProperties | frontend/components/agent-listing.tsx:71-78 | Agents with the updated id are replaced and the others kept; the update is idempotent and a no-op when the id is absent |
| Listing.FileIds | frontend/components/agent-listing.tsx:111-112 | One delete request per member |
| Listing.DeleteGroup | frontend/components/agent-listing.tsx:107-131 | Each member's file id is requested in order; the count equals the number of successes; the list is refetched exactly when some delete succeeded |
| Listing.RunningMemberBlocksGroup | frontend/components/agent-listing.tsx:289-293 | Once one member of a group runs, the start button of every other member that is not running is disabled, and the group delete is disabled too (line 249) |
| Listing.AgentList.constructor | frontend/components/agent-listing.tsx:17-22 | Starts empty, with the dialog closed |
| Listing.AgentList.Refetched | frontend/components/agent-listing.tsx:25-37 | The list becomes the fetched one |
| Listing.AgentList.AddAgents | frontend/components/agent-listing.tsx:57-64 | Appends the created agents and closes the dialog |
| Listing.AgentList.EditAgent | frontend/components/agent-listing.tsx:66-69 | Opens the dialog on the agent |
| Listing.AgentList.CloseDialog | frontend/components/agent-listing.tsx:333-336 | Closes the dialog and forgets the agent being edited |
| Listing.AgentList.UpdateAgent | frontend/components/agent-listing.tsx:71-85 | Replaces by the first updated record, if any, and closes the dialog |
| Listing.AgentList.StartAgent | frontend/components/agent-listing.tsx:151-187 | The file id is marked running exactly on success or on the already-running reply; the running set only grows |
| Chat.GroupName | frontend/components/chat-interface.tsx:41-54 | No group exactly when the file name is missing or empty; otherwise a `Grouped Agent ` label |
| Chat.MentionLabel | frontend/components/chat-interface.tsx:57-62 | The name alone, or the name followed by the group in parentheses |
| Chat.GroupNameAgreesWithListing | frontend/components/chat-interface.tsx:41-54 | The chat and the listing label a group alike, except for a file named `Ungrouped` |
| Chat.WordRun | frontend/components/chat-interface.tsx:211 | Returns the length of the leading run of `\w` characters |
| Chat.MentionLength | frontend/components/chat-interface.tsx:211 | The greedy match is non-empty and within the text |
| Chat.MentionBody | frontend/components/chat-interface.tsx:211 | The matched name is non-empty and within the text |
| Chat.MentionBodyWellFormed | frontend/components/chat-interface.tsx:211 | What the pattern matches has the form `\w+(-\w+)*` |
| Chat.MentionNamesWellFormed | frontend/components/chat-interface.tsx:211-215 | Every extracted name has the form `\w+(-\w+)*` |
| Chat.NoAtNoMentions | frontend/components/chat-interface.tsx:211-213 | A text without `@` mentions nobody |
| Chat.MentionLengthOfName | frontend/components/chat-interface.tsx:211 | A well-formed name followed by a space is matched exactly |
| Chat.MentionRoundTrip | frontend/components/chat-interface.tsx:211-215 | `@name ` as the mention box inserts it is extracted again as exactly `name`, and extraction goes on after it |
| Chat.FirstNamedIsFirstMentioned | frontend/components/chat-interface.tsx:218-252 | The agent auto-connected to is the first one the simulated reply would list |
| Chat.SimulatedReplyCases | frontend/components/chat-interface.tsx:240-272 | The receipt text appears exactly when nothing is mentioned; the not-found text exactly when mentions match no agent; otherwise the processing reply |
| Chat.DetailedReplyOpens | frontend/components/chat-interface.tsx:254-267 | The processing reply opens with its prefix and differs from the other two replies |
| Chat.DetailLinesContain | frontend/components/chat-interface.tsx:260-264 | Every matched agent's detail line is in the details |
| Chat.ReplyListsEveryNamed | frontend/components/chat-interface.tsx:249-267 | Every listed agent named by a mention has its detail line in the reply |
| Chat.FindById | frontend/components/chat-interface.tsx:110 | `find` returns the first listed agent with that id, or nothing exactly when none has it |
| Chat.GreetingUsesAgentId | frontend/components/chat-interface.tsx:110-115 | The greeting looks up the dialled file id among agent ids and so can name another agent |
| Chat.CloseText | frontend/components/chat-interface.tsx:168-170 | The close message carries the reason, or `Connection closed` when there is none |
| Chat.InboundContent | frontend/components/chat-interface.tsx:131-148 | A JSON frame with a non-empty `message` shows that message; any other frame shows its raw text |
| Chat.RouteForCases | frontend/components/chat-interface.tsx:194-240 | Blank input is ignored. An open socket forwards the text. Otherwise, with no agent active and a known agent mentioned, the first such agent is dialled. Every other case schedules a simulated reply |
| Chat.MentionStartsConnection | frontend/components/chat-interface.tsx:211-236 | A message that opens with the name of a known agent and mentions nothing else, sent while disconnected with no agent active, dials the first agent of that name and schedules no reply |
| Chat.BillingBotWellFormed | frontend/components/chat-interface.tsx:211 | `billing-bot` matches the mention pattern in full |
| Chat.ChatSession.constructor | frontend/components/chat-interface.tsx:24-37 | The log holds only the welcome message; the session is disconnected with no agent |
| Chat.ChatSession.SetInput | frontend/components/chat-interface.tsx:355 | Stores the mention box text |
| Chat.ChatSession.SetAgents | frontend/components/chat-interface.tsx:69-80 | Stores the fetched agents |
| Chat.ChatSession.Disconnect | frontend/components/chat-interface.tsx:185-192 | With a socket: closes it, drops it and the agent, and is disconnected; without one: nothing changes |
| Chat.ChatSession.Connect | frontend/components/chat-interface.tsx:92-103 | Closes a held socket first, then dials a new one and is connecting |
| Chat.ChatSession.OnOpen | frontend/components/chat-interface.tsx:105-123 | Holds the socket, is connected, and logs the greeting |
| Chat.ChatSession.OnMessage | frontend/components/chat-interface.tsx:131-149 | Appends exactly one assistant message per frame, in arrival order |
| Chat.ChatSession.OnClose | frontend/components/chat-interface.tsx:160-173 | Drops the socket, is disconnected, and logs the reason |
| Chat.ChatSession.ReplyTimerFired | frontend/components/chat-interface.tsx:240-281 | The oldest pending reply is appended as an assistant message |
| Chat.ChatSession.SendMessage | frontend/components/chat-interface.tsx:194-285 | Whole new state for each route. Blank input changes nothing. Forwarding logs and sends the text verbatim. Auto-connect logs the text and the connecting notice, dials the agent's file id and keeps the input. A simulated reply logs the text, queues the reply and clears the input |
| Chat.ChatSession.ForwardInput | frontend/components/chat-interface.tsx:204-208 | Logs the text, sends it, and clears the input |
| Chat.ChatSession.StartAutoConnect | frontend/components/chat-interface.tsx:222-235 | Logs the text and the connecting notice, makes the agent active and dials its file id |
| Chat.ChatSession.ScheduleReply | frontend/components/chat-interface.tsx:240-284 | Logs the text, queues the reply and clears the input |
| Registry.NextAgentId | backend/app/services/mcp_agent_service.py:33-36 | A new rowid is above every existing one: 1 in an empty table, else one past an existing id |
| Registry.NextFileId | backend/app/services/mcp_agent_service.py:60-63 | The same rule for batch records |
| Registry.ClashFrom | backend/app/services/mcp_agent_service.py:25-30 | Finds the first agent whose name is taken, or reports that there is none |
| Registry.CreateAcceptedIff | backend/app/services/mcp_agent_service.py:25-30 | A batch goes through exactly when its names are pairwise distinct and none is in the table |
| Registry.ClashIsTaken | backend/app/services/mcp_agent_service.py:28-29 | The name query, run after the earlier agents were committed, models the clash rule |
| Registry.CreateStep | backend/app/services/mcp_agent_service.py:33-45 | One commit keeps rowids increasing and names unique, and extends the batch configuration by the new entry |
| Registry.BatchConfigContents | backend/app/services/mcp_agent_service.py:39-43 | The batch configuration has one entry per created agent, keyed by its name, and nothing else |
| Registry.BatchFileLabel | backend/app/services/mcp_agent_service.py:51-52 | The console labels a batch by the last four digits of its timestamp |
| Registry.Service.InsertBatch | backend/app/services/mcp_agent_service.py:25-48 | Commits the agents before the first clash, in order and with consecutive rowids; the table invariant is kept |
| Registry.Service.CreateAgents | backend/app/services/mcp_agent_service.py:21-69 | Agents before a clash stay committed and an error names the clashing agent. Without a clash, one batch record holding the new ids is added, unless its file name is already taken |
| Registry.Window | backend/app/services/mcp_agent_service.py:81 | `offset`/`limit` returns at most `limit` rows |
| Registry.WindowPages | backend/app/services/mcp_agent_service.py:81 | Two consecutive pages are one double page |
| Registry.WindowUnlimited | backend/app/services/mcp_agent_service.py:81 | A negative limit with offset 0 returns every row |
| Registry.FirstLikeFrom | backend/app/services/mcp_agent_service.py:85 | `LIKE` with `.first()` returns the first batch whose id list contains the text, or none exactly when no batch does |
| Registry.ListedWithItsBatch | backend/app/services/mcp_agent_service.py:84-91 | An agent of a stored batch is always listed with a batch, either that one or an earlier one |
| Registry.ListedWithWrongBatch | backend/app/services/mcp_agent_service.py:85 | Agent 1 is attached to a batch holding 10 and 11 |
| Registry.Service.GetAgents | backend/app/services/mcp_agent_service.py:79-93 | Returns the window of agents, each annotated with its batch file |
| Registry.ApplyItems | backend/app/services/mcp_agent_service.py:101-102 | `setattr` never changes a row's id or its id list |
| Registry.ApplyAppend | backend/app/services/mcp_agent_service.py:101-102 | Applying items one after another equals applying them all |
| Registry.ApplyPart | backend/app/services/mcp_agent_service.py:101-102 | An unsupplied field is not applied |
| Registry.ApplyExtraPart | backend/app/services/mcp_agent_service.py:101-102 | A field other than `name` becomes a plain attribute |
| Registry.AppliedIs | backend/app/services/mcp_agent_service.py:100-102 | The updated object is the row with the supplied name plus the other supplied fields |
| Registry.UpdateSetsSupplied | backend/app/services/mcp_agent_service.py:100-102 | Exactly the supplied fields are set, to the supplied values; `name` goes to the row and the rest are attributes |
| Registry.MissingAttr | backend/app/services/mcp_agent_service.py:145-152 | Writing the configuration fails exactly when `command`, `args` or `env` is missing |
| Registry.UpdateWritesConfigIff | backend/app/services/mcp_agent_service.py:95-107 | An update ends without an attribute error exactly when command, args and env were all supplied |
| Registry.FindFile | backend/app/services/mcp_agent_service.py:118 | `.first()` by id returns the first row with the id, or nothing exactly when none has it |
| Registry.Service.GetAgent | backend/app/services/mcp_agent_service.py:76-77 | Returns the stored batch row with the id, or nothing exactly when none has it |
| Registry.Service.SetAll | backend/app/services/mcp_agent_service.py:101-102 | The `setattr` loop computes the applied object |
| Registry.Service.UpdateAgent | backend/app/services/mcp_agent_service.py:95-107 | No row means no result. A supplied name taken by another row is a unique-constraint error. Otherwise the row's name is stored and the result, or a missing-attribute error, is reported. The agents table is untouched |
| Registry.ParsePieces | backend/app/services/mcp_agent_service.py:123 | Every piece is parsed in order, or the first piece that is not a number is reported: every piece before it parses |
| Registry.IdListRoundTrip | backend/app/services/mcp_agent_service.py:59-60 | The id list stored for a non-empty batch parses back to its ids |
| Registry.EmptyIdListFails | backend/app/services/mcp_agent_service.py:123 | The empty id list fails to parse, on the piece `""` |
| Registry.DeleteStep | backend/app/services/mcp_agent_service.py:126-131 | Each loop turn removes one more listed id |
| Registry.DeleteRemovesListed | backend/app/services/mcp_agent_service.py:126-131 | A row survives exactly when its id is not listed |
| Registry.Service.DeleteListed | backend/app/services/mcp_agent_service.py:126-131 | The loop removes exactly the listed agents and keeps the table invariant |
| Registry.Service.DeleteAgentFile | backend/app/services/mcp_agent_service.py:109-143 | A missing record gives false. An unparsable list raises and changes nothing. Otherwise the listed agents and the record are removed and the result is true |
| Registry.Service.GetAgentFileForAgent | backend/app/services/mcp_agent_service.py:182-196 | Returns a name exactly when a batch record with the id exists, and then it is that record's name |
| Registry.Service.constructor | backend/app/services/mcp_agent_service.py:16-19 | Starts from an empty database |

## Left out

- `MentionInput.MentionQuery` reads the caret as a count of characters (Unicode scalar values), because Dafny strings are sequences of those. The component's `selectionStart` and `substring` count UTF-16 code units. The two agree on text without characters outside the Basic Multilingual Plane. Each such character before the caret, such as an emoji, makes the component's position one larger than the model's.
- `MentionInput.SpliceMention` counts the token's start and the returned caret in characters, not in UTF-16 code units, for the same reason. The two agree on text and names without characters outside the Basic Multilingual Plane.
- `MentionInput.SpliceMentionReplacesToken` gives the caret as `startPos + |name| + 2` characters. For a name with characters outside the Basic Multilingual Plane, the component's `agentName.length + 2` in code units is larger.
- `MentionInput.MentionBox.InputChange` and `MentionInput.MentionBox.InsertMention` take and return positions in characters, not in UTF-16 code units, for the same reason.
- Configuration files. The JSON files written and deleted under `configs/` (`_save_all_agents_config`, `_save_agent_config`'s write, `_delete_agent_config`, the unlink at line 137) are file I/O. The model returns the batch configuration instead, and models the attribute reads that can fail.
- `start_agent` launches a process with `Popen`. The frontend's start call is modelled only through its reply (`StartReply`).
- Timestamps: `created_at`, `updated_at` and `datetime.now()`. The batch timestamp is a parameter.
- Ids from `Date.now()` are parameters, and their distinctness is not assumed.
- `Registry.Service.GetAgents`: response-model validation and serialisation are not modelled.
- `Registry.Service.DeleteAgentFile` and `Registry.Service.DeleteListed` remove every row with a listed id rather than the first one. Rowids are unique (the `Valid` invariant), so the two agree.
- `Registry.ParsePieces` accepts plain decimal digits only. Python's `int()` also accepts surrounding white space, a sign and underscores; the stored lists never contain them.
- Explicit JSON `null` values in an update body are not modelled; a field is either supplied or not.
- Toasts and console logging, `isLoading`, `isSubmitting`, error banners and scrolling.
- The caret focus done in `setTimeout`. `InsertMention` returns the new caret instead.
- The mount-time fetches of the mention box and the chat panel. They are modelled as `SetAgents`, and the listing's fetch as `Refetched`.
- `Chat.ChatSession.SendMessage` reads "the socket is open" as "a socket handle is held". `readyState` is not modelled separately, because the handle is set only in `onopen` and cleared on close.
- The chat's `onerror` handler only shows a toast.
- The socket-creation failure branch at lines 174-182 of chat-interface.tsx is not modelled. `new WebSocket` throws only for a malformed URL, and this URL is built from a fixed host and a number.
- Stale React closures and batched state updates. Each handler is modelled as acting on the current state.
- `Listing.GroupAgents` gives groups in first-seen order. JavaScript `Object.entries` lists integer-like keys first and then the rest in insertion order, and that rendering order is not modelled.
- Display formatting: the `formatLabel(...).replace(...).trim()` of the mention list, and the markup.
- `Text.ToLower` folds ASCII letters only. Locale-dependent and non-ASCII case folding is not modelled.
- `handleDeleteAgent` is not modelled separately. Its request and refetch are the one-member case of `Listing.DeleteGroup`.
- The HTTP wrappers in `api.ts` and the endpoint layer are not modelled. The components see their results as parameters.
