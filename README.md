# AI Roundtable War Room: a verified model of the replicated chat session

AI Roundtable is a Chrome side-panel extension. It sends one prompt to several AI chat sites (Gemini, Claude, ChatGPT, AI Studio) open in tabs. It harvests their replies into a shared chat log, and it replicates that log between browsers over PeerJS in a star: one host relays for its guests.

This project models the core of that system in Dafny and proves properties of the model:

- the chat log engine: add, delete by index, clear, and when each change is broadcast;
- the peer-to-peer session: roles, the connection lifecycle, the host's bootstrap of a new guest, and the message handler with its relay rule;
- presence announcements and the roster;
- tab scanning, context building, prompt distribution and reply harvesting;
- the view rules that carry behaviour: mention highlighting, edit-on-blur, roster visibility and badge style;
- the ChatGPT tab's reply cleaner and its request router;
- the places where the single-file `sidepanel.js` departs from the modular sources.

Modules follow the source files:

| module | file | source |
|---|---|---|
| `JsText` | `js_text.dfy` | the JavaScript string behaviour used: `trim`, `\s`, `\d`, `\w`, `/i` on ASCII, `includes` |
| `Wire` | `wire.dfy` | log entries, presence payloads, LAN messages, tab requests |
| `State` | `state.dfy` | `src/state.js`: the `Session` class holding the shared mutable record |
| `Lan` | `lan.dfy` | `lanBroadcast` and the relay loops of `src/p2p.js` |
| `Chat` | `chat.dfy` | `src/chat.js` |
| `Presence` | `presence.dfy` | `broadcastPresence` in `src/p2p.js` |
| `Agents` | `agents.dfy` | `src/agent-manager.js` |
| `P2p` | `p2p.dfy` | the rest of `src/p2p.js` |
| `Ui` | `ui.dfy` | `src/ui.js` |
| `ChatGptDriver` | `chatgpt_driver.dfy` | `drivers/driver_chatgpt.js` |
| `Sidepanel` | `sidepanel.dfy` | `sidepanel.js`, where it differs |

How the model is built:

- The state is one `Session` object whose methods update its fields in place. Each method's `modifies` clause names exactly the fields it writes.
- Effects the program hands to the browser are recorded in ghost logs on the session:
  - `outbox`: every `conn.send`, as (connection, message);
  - `tabOutbox`: every `chrome.tabs.sendMessage`, as (tab, request);
  - `saves`: the number of `saveState` calls;
  - `confirms`: the number of `confirm` dialogs;
  - `destroyedPeers` and `dialled`: the peer teardowns and host dials.
- A connection is an opaque id. Whether it is open belongs to the transport, so `open: set<ConnId>` is a parameter.
- `Date.now()`, the answer to `confirm`, and the form controls (the `Panel` value) are parameters too.
- A `setTimeout` callback is a separate step. For example, `HostBootstrap` is the host's delayed sync of a new guest.
- `peerRoster` is a `map` plus `rosterOrder`, the order JavaScript lists the object's keys in. `RosterValid()` keeps the two consistent.

`sidepanel.js` repeats most of the modular code, and the same members model its copies:

| `sidepanel.js` lines | modelled by |
|---|---|
| 190-217 | `Chat.AddMessage` |
| 219-231 | `Chat.DeleteMessage` |
| 107-117 | `Chat.ClearSession` |
| 373-447 | `P2p.HandleLanMessage` |
| 333-352 | `P2p.SetupConnection` |
| 283-304 | `P2p.HostBootstrap` |
| 360-371 | `Lan.LanBroadcast` |
| 702-726 | `Presence.BroadcastPresence` |
| 545-571 | `Agents.GetContextBlockForAgent` |
| 626-666 | `Agents.OnHarvestReply` |
| 673-679 | `Ui.FormatTextWithMentions` |
| 728-737 | `Ui.RosterHidden` |

`sidepanel.js` differs from the modular code in three places, which `Sidepanel` models:

- a host's close handler uses `filter`, not `indexOf`/`splice`;
- the blur handler has no existence guard;
- the clear button is wired directly to `clearSession`.

Where the design description and the code disagree, the model follows the code:

- `addMessage` tests for empty text before it strips the boilerplate prefix. A text such as `Answer:` is therefore stored as an entry with empty text, not dropped (`Chat.AnswerAloneStoresEmptyText`).
- `startLanSession` only sets the role and replaces the peer. It does not reset connections, `hostConn`, `lanConnected` or the roster (`P2p.StartLanSession`).

## Model

| member | source | states |
|---|---|---|
| JsText.TrimStartSpec | src/chat.js:8 | Removing leading whitespace leaves a suffix. Everything cut is whitespace, and the result does not start with whitespace. |
| JsText.TrimEndSpec | src/chat.js:8 | Removing trailing whitespace leaves a prefix. Everything cut is whitespace, and the result does not end with whitespace. |
| JsText.TrimShape | src/chat.js:8 | `trim()` gives a contiguous piece of the input with only whitespace cut from either side. The piece neither starts nor ends with whitespace. |
| JsText.TrimEmptyIffAllSpace | src/chat.js:8-9 | A trimmed text is empty (falsy) exactly when the input is all whitespace. |
| JsText.TrimIdempotent | src/chat.js:12 | Trimming the already trimmed text again changes nothing. |
| JsText.ContainsIffOccurs | src/agent-manager.js:15-18 | `includes` holds exactly when the pattern occurs at some index. |
| JsText.LowerAscii | src/ui.js:120-122 | `toLowerCase` keeps the length and folds each character on its own. |
| State.ActiveTabs.With | src/agent-manager.js:15-18 | Binding one site's tab leaves the other three bindings unchanged. |
| State.Session.constructor | src/state.js:1-19 | The initial record: no tabs, no peer, no connections, empty roster and log, not connected, not host. |
| State.Session.SetPeer | src/state.js:34 | Sets the peer and nothing else. |
| State.Session.SetLanConnected | src/state.js:35 | Sets the connected flag and nothing else. |
| State.Session.SetIsHost | src/state.js:36 | Sets the role and nothing else. |
| State.Session.SetHostConn | src/state.js:37 | Sets the connection to the host and nothing else. |
| State.Session.SaveState | src/state.js:30-32 | Records exactly one write of the log. |
| State.Session.LoadState | src/state.js:22-28 | A stored log replaces the current one; without one, the log stays. |
| State.Session.PutRoster | src/p2p.js:247 | Replaces or adds one roster entry. A new id is appended once to the key order, and the map and the order stay consistent. |
| Lan.OpenExceptMembers | src/p2p.js:222-224 | A connection gets the broadcast exactly when it is in the set, open and not excluded. |
| Lan.FanoutAt | src/p2p.js:222-224 | Send `i` goes to target `i` and carries the same message. |
| Lan.BroadcastTargetsShape | src/p2p.js:220-228 | A host reaches exactly its open connections. A guest reaches only its host connection, and only while it is open. |
| Lan.RelayNoEcho | src/p2p.js:277-283 | A relay send goes to (c, m) exactly when this peer is host, c is an open connection other than the sender, and m is the received message. Nothing goes back to the sender, and a guest relays nothing. |
| Lan.Send | src/p2p.js:205 | `conn.send` appends exactly one send to the outbox. |
| Lan.SendToOpen | src/p2p.js:222-224 | The `forEach` loop sends the message to every open connection except the excluded one, in set order. |
| Lan.LanBroadcast | src/p2p.js:220-228 | `lanBroadcast` appends one send per broadcast target, in order. |
| Lan.Relay | src/p2p.js:277-283 | The relay appends exactly the relay sends, and only on a host. |
| Chat.ChatGptSaidLength | src/chat.js:12 | `ChatGPT\s*said:` matches exactly when the text starts with `ChatGPT` (any case) and, after the whitespace run that follows, with `said:`. The match then takes the whole greedy whitespace run and ends after `said:`. Otherwise the length is 0. |
| Chat.NormalizeShape | src/chat.js:8-12 | The stored text is a contiguous piece of the input. |
| Chat.NoBoilerplateKeepsTrim | src/chat.js:12 | With no boilerplate prefix, the stored text is the trimmed input. |
| Chat.AnswerAloneStoresEmptyText | src/chat.js:8-15 | `Answer:` passes the emptiness check, yet its stored text is empty. |
| Chat.AnswerPrefixLength | src/chat.js:12 | `answer:` in any case is matched only by the last alternative, which removes 7 characters. |
| Chat.OnePrefixOnly | src/chat.js:12 | Only one prefix is stripped: `answer:answer:` is stored as `answer:`. |
| Chat.RemoveAt | src/chat.js:37 | `splice(i, 1)` shortens the log by one. Entries before `i` stay; later ones shift down by one. |
| Chat.DeleteTwiceShifts | src/chat.js:36-37 | Deleting at `i` twice removes the entry at `i` and then the one that shifted into its place. |
| Chat.Record | src/chat.js:15-16 | The entry is appended at the end and saved once. |
| Chat.AddMessage | src/chat.js:6-31 | A whitespace-only text changes nothing. Otherwise exactly one normalised entry is appended and saved, and it is broadcast exactly when the call is local and the peer is connected. |
| Chat.DeleteMessage | src/chat.js:33-45 | A local delete asks once; a network delete never asks. An index holding no entry changes nothing. Otherwise that one entry goes, and a local delete is broadcast with the same index while connected. |
| Chat.ClearSession | src/chat.js:47-57 | Same confirmation rule. The log becomes empty and is saved, and a local clear is broadcast while connected. |
| Presence.AgentLabelInjective | src/p2p.js:235-238 | Each agent label names exactly one site. |
| Presence.BoundLabelsMembers | src/p2p.js:234-238 | A label is listed exactly when its site is in the list and its tab is bound (truthy). |
| Presence.PresenceAgentsSpec | src/p2p.js:234-238 | The announced agents are the bound sites in the fixed order Gemini, Claude, ChatGPT, AI Studio: each bound site once, no unbound one. |
| Presence.DisplayName | src/p2p.js:233 | `input.trim() \|\| fallback` gives the trimmed input when it is not empty, and the fallback otherwise. |
| Presence.DisplayNameShape | src/p2p.js:233 | The display name is never empty, and it is either the fallback or has no surrounding whitespace. |
| Presence.BroadcastPresence | src/p2p.js:230-250 | Does nothing unless connected with a peer. Otherwise the own entry replaces the own roster entry and is broadcast as `PRESENCE`. |
| Agents.ClassifySpec | src/agent-manager.js:15-18 | A URL goes to the first site, in configuration order, whose pattern it contains, and to no site when it contains none. |
| Agents.ScanLastWins | src/agent-manager.js:12-19 | After a scan a site is unbound exactly when no tab matched it. Otherwise it is bound to the last matching tab. |
| Agents.UniqueAgentTabIdsSpec | src/agent-manager.js:22 | The ids handed to tab grouping are exactly the bound ones, at most four. |
| Agents.ScanForTabs | src/agent-manager.js:7-78 | The bindings are rebuilt from scratch by the scan, the bound ids are grouped, and presence is re-announced when connected. |
| Agents.IncludedMembers | src/agent-manager.js:89-93 | An entry is in the context exactly when it is in the log and smart context does not omit it. |
| Agents.IncludedAll | src/agent-manager.js:89-93 | Without smart context, every entry is included. |
| Agents.ContextBlockEmpty | src/agent-manager.js:80-98 | The block is `''` exactly when history is off or every entry is omitted. Otherwise it is the header, one `[sender]: text` line per included entry, and the footer. |
| Agents.GetContextBlockForAgent | src/agent-manager.js:80-98 | The accumulating loop returns exactly that block. |
| Agents.SendPlanMembers | src/agent-manager.js:122-147 | A tab gets a request exactly when its site is bound and checked, and the request is that site's. |
| Agents.DistributeToAgents | src/agent-manager.js:115-149 | Each selected agent's tab gets its own context block followed by the raw prompt, in configuration order. |
| Agents.HarvestResponses | src/agent-manager.js:151-166 | Each selected agent's tab gets `HARVEST_LATEST`, in configuration order. |
| Agents.LastFromSpec | src/agent-manager.js:175 | The reverse `find` gives the newest entry from that sender, or nothing when there is none. |
| Agents.OnHarvestReply | src/agent-manager.js:166-186 | No reply, a duplicate or blank text changes nothing. Otherwise one agent entry is added and broadcast while connected. |
| Agents.HarvestAgainDuplicate | src/agent-manager.js:175-179 | After an add, the agent's newest entry is that entry. The same reply counts as a duplicate exactly when normalising left it unchanged. |
| Agents.AnswerReplyStored | src/chat.js:12 | `Answer:42` is stored as `42`. |
| Agents.HarvestTwiceAppendsTwice | src/agent-manager.js:175-179 | The reply `Answer:42` harvested a second time is not recognised as a duplicate. |
| Agents.HarvestStoredIdempotent | src/agent-manager.js:175-179 | With the corrected test, a reply harvested again is always suppressed, and the two tests agree on text that storing leaves unchanged. |
| Agents.OnHarvestReplyStored | src/agent-manager.js:173-182 | The harvest callback with the corrected duplicate test. |
| Agents.BroadcastPrompt | src/agent-manager.js:100-113 | A blank prompt does nothing. Otherwise a `user` entry from the trimmed username (or `You`) is logged and broadcast first, and the raw prompt is then distributed with contexts that already hold it. |
| P2p.StartLanSession | src/p2p.js:10-74 | The role is set, and any previous peer is destroyed and replaced. Connections, `hostConn`, `lanConnected` and the roster are kept. |
| P2p.ConnectToHost | src/p2p.js:123-132 | Without a peer nothing happens. Otherwise the host is dialled once. |
| P2p.OnPeerOpen | src/p2p.js:76-91 | A host becomes connected and announces itself: its entry replaces its roster entry, its id is appended to the key order only if new, and the announcement goes to its targets. A guest with a room id dials it; without one, nothing happens. |
| P2p.SetupConnection | src/p2p.js:177-201 | A host appends the connection and schedules the bootstrap. A guest does neither. |
| P2p.OnIncomingConnection | src/p2p.js:93-98 | Only a host accepts an incoming connection. |
| P2p.OnHostConnOpen | src/p2p.js:134-141 | The guest becomes connected through that connection. |
| P2p.IndexOf | src/p2p.js:190 | `indexOf` gives the first position holding the connection, or -1 exactly when it is absent. |
| P2p.RemoveFirstSpec | src/p2p.js:190-191 | A close removes exactly the first copy of the connection and keeps the others in order. An unknown connection changes nothing. |
| P2p.SetupThenCloseRestores | src/p2p.js:179-191 | Setting up a new connection and then closing it restores the set. |
| P2p.OnConnectionClose | src/p2p.js:186-197 | A host drops the connection. A guest goes offline and forgets its host. |
| P2p.RosterSendsAt | src/p2p.js:212-214 | Replay send `i` carries the `i`-th roster member's entry. |
| P2p.RosterReplayed | src/p2p.js:211-214 | Every roster member is replayed to the new guest. |
| P2p.SendRoster | src/p2p.js:212-214 | The loop sends exactly the replay, in key order. |
| P2p.HostBootstrap | src/p2p.js:201-217 | If the connection has closed, nothing is sent. Otherwise the log snapshot goes first, then the host's presence to all, then the roster to the new guest. The roster goes in key order: the old order, with the host's id appended only if it was new. |
| P2p.OnSyncHistory | src/p2p.js:256-263 | A received history replaces the log wholesale and is saved. |
| P2p.OnNewMessage | src/p2p.js:265-285 | The entry is added as a network add. A user prompt triggers this peer's agents, and a host relays the message. |
| P2p.OnDeleteMessage | src/p2p.js:287-297 | Any number is handed on without confirmation and relayed. Only an integral index in range deletes. |
| P2p.OnClearSession | src/p2p.js:299-307 | The log is cleared without asking, and a host relays the clear. |
| P2p.OnPresence | src/p2p.js:309-320 | A payload with an id replaces that roster entry and is relayed. Anything else is ignored. |
| P2p.HandleLanMessage | src/p2p.js:252-322 | The new log, saves, roster, key order, relay sends and mesh-triggered prompts are those of the message applied to the old state, and no confirmation is asked. |
| P2p.PresenceIdempotent | src/p2p.js:309-311 | Applying the same announcement twice equals applying it once, and it moves no other roster entry. |
| P2p.RelayRule | src/p2p.js:276-319 | A relay goes only from a host, to open connections other than the sender, carrying the identical message. `SYNC_HISTORY` is never relayed. |
| P2p.IgnoredMessages | src/p2p.js:255-321 | An unknown message type, or a `PRESENCE` without an id, changes nothing and is not relayed. |
| P2p.ReplicaDropsAnsweredEntry | src/p2p.js:266-268 | As written, a replica holding the sender's log drops the entry the sender stored for `Answer:`. |
| P2p.ReplicasConverge | src/p2p.js:265-285 | With the corrected append, every broadcast edit leaves the replica with exactly the sender's new log. |
| P2p.SilentEditKeepsLog | src/chat.js:6-45 | An edit that broadcasts nothing (a blank add, a delete at an index holding no entry) leaves the sender's log as it was. |
| P2p.ReplicasConvergeAll | src/p2p.js:265-307 | With the corrected append, a replica that starts with the sender's log stays equal to it through any sequence of broadcast edits. So each later delete by index removes the same entry on both sides. |
| P2p.AsWrittenConvergesButForAdds | src/p2p.js:287-307 | As written, deletes and clears already leave the replica with the sender's log. |
| P2p.OnNewMessageVerbatim | src/p2p.js:265-285 | `NEW_MESSAGE` handling with the corrected append. |
| Ui.ReplaceCharAbsent | src/ui.js:11 | A global replace of a character that does not occur changes nothing. |
| Ui.EscapeHtmlEach | src/ui.js:11 | The three chained global replacements, `&` first, escape each character on its own. |
| Ui.EscapeEachNoAngles | src/ui.js:11 | Escaped text holds no `<` and no `>`. |
| Ui.UnescapeEscape | src/ui.js:11 | Decoding the escaped text gives the original back. |
| Ui.WordRun | src/ui.js:13 | The matched name is the longest run of `[\w一-龥]` characters. |
| Ui.WrapMentionsAbsent | src/ui.js:13 | Text without `@` gets no mention span. |
| Ui.FormatPlainUnchanged | src/ui.js:8-14 | Text without `@`, `&`, `<` and `>` is rendered as it is. |
| Ui.EscapedTextHasNoTags | src/ui.js:11 | The only angle brackets in the markup come from the mention spans. |
| Ui.StripWrap | src/ui.js:13 | Removing the mention spans from wrapped tag-free text gives the text back. |
| Ui.FormatRoundTrip | src/ui.js:8-14 | What the rendered entry reads back as (`innerText`) is exactly the stored text. |
| Ui.AfterBlurShape | src/ui.js:70-78 | An edit replaces only that entry's text. Its sender, kind and time stay, and so does every other entry. |
| Ui.BlurWithoutEditKeepsLog | src/ui.js:67-72 | Leaving an entry without editing it changes nothing. |
| Ui.EditOnBlur | src/ui.js:70-78 | Only an existing entry whose text differs is changed, saved and re-rendered. |
| Ui.RosterHiddenSpec | src/ui.js:92-95 | The roster panel is hidden exactly when not connected and nobody is listed. Once anyone is stored, it shows. |
| Ui.StyleKeyGemini | src/ui.js:119-122 | The badge for `Gemini` is styled `gemini`. This is one instance of `Ui.StyleKeyOfLabels`. |
| Ui.StyleKeyClaude | src/ui.js:119-122 | The badge for `Claude` is styled `claude`. This is one instance of `Ui.StyleKeyOfLabels`. |
| Ui.StyleKeyChatGpt | src/ui.js:119-122 | The badge for `ChatGPT` contains none of the three names and falls back to `gpt`. This is one instance of `Ui.StyleKeyOfLabels`. |
| Ui.StyleKeyAiStudio | src/ui.js:119-122 | The badge for `AI Studio` is styled `aistudio`, through `studio`. This is one instance of `Ui.StyleKeyOfLabels`. |
| Ui.StyleKeyOfLabels | src/ui.js:117-122 | Every agent label a presence announcement carries is styled with its own site's key. |
| ChatGptDriver.DigitRun | drivers/driver_chatgpt.js:131 | `\d+` takes the longest run of digits at the start. |
| ChatGptDriver.DigitRunOf | drivers/driver_chatgpt.js:131 | The run over digits followed by a non-digit is exactly those digits. |
| ChatGptDriver.HeaderOnce | drivers/driver_chatgpt.js:129-130 | A header present at the start is removed with at most one newline after it, and only once. |
| ChatGptDriver.HeaderShape | drivers/driver_chatgpt.js:129-130 | Whatever a header step removes is the header, in any case, plus at most one newline. |
| ChatGptDriver.TimingMatch | drivers/driver_chatgpt.js:131 | A timing line (digits, `s` in either case, newline) at the start is removed, and nothing after it. |
| ChatGptDriver.TimingShape | drivers/driver_chatgpt.js:131 | Whatever the timing step removes is a timing line. |
| ChatGptDriver.ThinkingStrippedOnce | drivers/driver_chatgpt.js:129 | `Thinking...` goes with one newline after it, and only once. |
| ChatGptDriver.SaidStrippedOnce | drivers/driver_chatgpt.js:130 | `ChatGPT said:` goes with one newline after it, and only once. |
| ChatGptDriver.ThinkingLineStripped | drivers/driver_chatgpt.js:129 | A `Thinking...` line is removed with its newline. |
| ChatGptDriver.SaidLineStripped | drivers/driver_chatgpt.js:130 | A `ChatGPT said:` line is removed with its newline. |
| ChatGptDriver.AllHeadersStripped | drivers/driver_chatgpt.js:128-132 | All three headers, in their order, are removed, and the rest is trimmed. |
| ChatGptDriver.TimingFirstKeepsRest | drivers/driver_chatgpt.js:128-132 | The order is fixed: after a leading timing line, a `Thinking...` or `ChatGPT said:` header stays. |
| ChatGptDriver.LeadingSpaceOnlyTrims | drivers/driver_chatgpt.js:128-132 | Stripping runs before trimming, so after leading whitespace no header is removed. |
| ChatGptDriver.CleanTextShape | drivers/driver_chatgpt.js:123-132 | The cleaned reply is a contiguous piece of the scraped text and has no surrounding whitespace; falsy input gives `""`. |
| ChatGptDriver.RouterShape | drivers/driver_chatgpt.js:9-21 | Only `PING` and `HARVEST_LATEST` are answered at once, and only `DISTRIBUTE_PROMPT` keeps the channel open. `PING` is answered `{status: 'OK', agent: 'ChatGPT'}`. |
| ChatGptDriver.HarvestAlwaysSucceeds | drivers/driver_chatgpt.js:85-121 | A harvest always reports success. Its text is the cleaned reply, the no-response placeholder, or the error placeholder with the message. |
| ChatGptDriver.OnlyHarvestCarriesText | drivers/driver_chatgpt.js:9-21 | No other request gives the harvest callback a text. |
| Sidepanel.RemoveAll | sidepanel.js:345 | After `filter`, the closed connection is gone. |
| Sidepanel.RemoveAllCounts | sidepanel.js:345 | Every copy of the closed connection goes, and every other connection stays as often as it was listed. |
| Sidepanel.RemoveAllAppend | sidepanel.js:345 | The filter works piece by piece, so the remaining connections keep their order. |
| Sidepanel.RemoveAllAbsent | sidepanel.js:345 | Closing an unlisted connection changes nothing. |
| Sidepanel.FilterAgreesWithSplice | sidepanel.js:344-346 | While each connection is listed at most once, the filter and the modular splice give the same set. |
| Sidepanel.FilterDropsEveryCopy | sidepanel.js:345 | With a connection listed twice, the filter drops both copies and the splice only the first. |
| Sidepanel.OnConnectionClose | sidepanel.js:342-351 | A host drops every copy of the connection. A guest goes offline and forgets its host. |
| Sidepanel.EditOnBlur | sidepanel.js:174-182 | Without the guard, an index past the end throws before anything changes. Otherwise it acts as the guarded handler does. |
| Sidepanel.FromNetwork | sidepanel.js:107-108 | An absent argument means `false` and a boolean means itself; the click event is truthy. |
| Sidepanel.ClearButtonAsWritten | sidepanel.js:35 | As wired, a click wipes the log with no confirmation and tells no peer. |
| Sidepanel.ClearButton | sidepanel.js:107-117 | As intended, a click asks once. A confirmed clear empties the log and reaches the peers while connected. |

## Left out

- DOM rendering and event wiring are not modelled: `renderHistory`, the `createMessageElement` markup, roster cards, `logSystem`/`updateLanStatus`, `src/logger.js`, `src/main.js` and the `DOMContentLoaded` handlers. The clear button's wiring is the exception (`Sidepanel.ClearButtonAsWritten`).
- The PeerJS/WebRTC transport is not modelled: the `Peer` constructor, ICE and server configuration, ICE diagnostics, error and disconnect logging, and `peer.reconnect`. It belongs to an external library, so connections are opaque ids and `open` is a parameter.
- Each `setTimeout` delay is an explicit later step, not time. Examples are the host bootstrap and the guest's delayed presence.
- Storage I/O is not modelled. `chrome.storage` reads and writes are a save counter and a `LoadState` parameter.
- Tab messaging is a ghost log of requests. `chrome.tabs.sendMessage` replies arrive as parameters of the harvest callback, and `chrome.runtime.lastError` is that parameter's `None`.
- `chrome.tabs.group` and `tabGroups.update` are not modelled: they are a foreign call. `ScanForTabs` returns the ids it would group.
- The other drivers (Gemini, Claude, AI Studio) are not modelled. Neither are ChatGPT's `runDistribute`, the `harvestLatestResponse` selectors, or `background.js`. These are site-specific DOM automation, so the page's scrape result is a parameter (`ChatGptDriver.Scrape`).
- `Date.now()`, `window.confirm`, `alert`, the username field and the checkboxes are parameters. So is the random default username of `sidepanel.js`.
- `sendRollCall` and the username-change listener are not modelled: they only fill or save a form field.
- The modular sources import agent names from `src/config.js`, which is not part of this model. The names and style keys come from `AGENT_CONFIG` in `sidepanel.js`.
- The new peer's id is treated as known as soon as `startLanSession` creates the peer.
- Strings are sequences of code points, not UTF-16 code units.
- `toLowerCase` and the `/i` flag are modelled as ASCII folding only.
- `innerText` is modelled as the decoded text of the markup, without the browser's line-break handling.
- `Object.values` is modelled in insertion order (`rosterOrder`). JavaScript lists integer-like keys first, which peer ids never are.
- Non-integral numbers as delete indices are one case (`OtherNumber`). They find no entry, and they are still relayed.

## Findings

| source | as written | input that shows it | evidently intended | confidence | as-written member | corrected member |
|---|---|---|---|---|---|---|
| src/agent-manager.js:175-179 | The harvest duplicate test compares the raw reply with the stored text, which has already been trimmed and stripped of a boilerplate prefix. | The reply `Answer:42` harvested twice is stored twice, because the stored text is `42`. | A reply identical to the agent's newest entry is added only once. | medium, not executed | Agents.HarvestTwiceAppendsTwice | Agents.HarvestStoredIdempotent |
| sidepanel.js:35 | `clearSession` is the click listener itself, so the click event lands in `fromNetwork`, which it makes truthy. | A click on the clear button while connected wipes the log without confirmation and broadcasts nothing. | Confirm first, then broadcast the clear, as `src/main.js:15` does with `() => clearSession(false)`. | high, not executed | Sidepanel.ClearButtonAsWritten | Sidepanel.ClearButton |
| src/p2p.js:266-268 | A received `NEW_MESSAGE` goes through `addMessage` again. It is re-trimmed, stripped of a second prefix, dropped when its stored text is empty, and re-stamped with the receiver's clock. | The prompt `Answer:` is stored by the sender as an entry with empty text, and the receiver drops it. The logs then differ in length, and later index-based deletes remove different entries. | A replica appends the entry exactly as its sender stored it, so the logs stay equal. | medium, not executed | P2p.ReplicaDropsAnsweredEntry | P2p.ReplicasConvergeAll |
