/** The agent manager: binding tabs to agent sites, the context block
    prepended to a prompt, and which tabs are sent a prompt or a harvest
    request. */
module Agents {
  import opened JsText
  import opened Wire
  import opened State
  import opened Lan
  import opened Chat
  import opened Presence

  /** An entry of `chrome.tabs.query({})`. */
  datatype Tab = Tab(id: TabId, url: string)

  /** The URL fragment that marks each site's tabs. */
  function UrlPattern(k: AgentKey): string {
    match k
    case Gemini => "gemini.google.com"
    case Claude => "claude.ai"
    case Gpt => "chatgpt.com"
    case AiStudio => "aistudio.google.com"
  }

  /** Position in the fixed configuration order. */
  function Rank(k: AgentKey): nat {
    match k
    case Gemini => 0
    case Claude => 1
    case Gpt => 2
    case AiStudio => 3
  }

  /** The site a tab belongs to: the first pattern, in configuration order,
      that its URL contains. */
  function Classify(url: string): Option<AgentKey> {
    if Contains(url, "gemini.google.com") then Some(Gemini)
    else if Contains(url, "claude.ai") then Some(Claude)
    else if Contains(url, "chatgpt.com") then Some(Gpt)
    else if Contains(url, "aistudio.google.com") then Some(AiStudio)
    else None
  }

  /** A URL is given the site of a pattern it contains, and no earlier
      pattern beats it; a URL containing no pattern is ignored. */
  lemma ClassifySpec(url: string, k: AgentKey)
    ensures Classify(url) == Some(k) <==>
              Contains(url, UrlPattern(k)) && forall k' :: Rank(k') < Rank(k) ==> !Contains(url, UrlPattern(k'))
    ensures Classify(url) == None <==> forall k' :: !Contains(url, UrlPattern(k'))
  {
    assert forall k' :: Rank(k') < Rank(Claude) ==> k' == Gemini;
    assert forall k' :: Rank(k') < Rank(Gpt) ==> k' == Gemini || k' == Claude;
    if Classify(url) == Some(k) {
      forall k' | Rank(k') < Rank(k) ensures !Contains(url, UrlPattern(k')) {
      }
    }
    if Classify(url) == None {
      forall k' ensures !Contains(url, UrlPattern(k')) {
      }
    } else {
      assert Contains(url, UrlPattern(Classify(url).value));
    }
  }

  /** The bindings after `scanForTabs` has gone through `ts`: reset, then each
      classified tab overwrites its site's binding, so the last one wins. */
  function ScanTabs(ts: seq<Tab>): ActiveTabs
    decreases |ts|
  {
    if ts == [] then NoTabs
    else
      var before := ScanTabs(ts[..|ts| - 1]);
      var t := ts[|ts| - 1];
      match Classify(t.url)
      case None => before
      case Some(k) => before.With(k, Some(t.id))
  }

  /** One more tab rebinds its own site and no other. */
  lemma ScanStep(ts: seq<Tab>, k: AgentKey)
    requires ts != []
    ensures ScanTabs(ts).Get(k)
            == if Classify(ts[|ts| - 1].url) == Some(k) then Some(ts[|ts| - 1].id) else ScanTabs(ts[..|ts| - 1]).Get(k)
  {
  }

  /** A site ends up unbound exactly when no tab is classified as it, and
      bound to the id of the last tab classified as it otherwise. */
  lemma {:induction false} ScanLastWins(ts: seq<Tab>, k: AgentKey)
    ensures ScanTabs(ts).Get(k).None? <==> forall i :: 0 <= i < |ts| ==> Classify(ts[i].url) != Some(k)
    ensures ScanTabs(ts).Get(k).Some? ==>
              exists i :: 0 <= i < |ts| && Classify(ts[i].url) == Some(k) && ScanTabs(ts).Get(k) == Some(ts[i].id)
                          && forall j :: i < j < |ts| ==> Classify(ts[j].url) != Some(k)
    decreases |ts|
  {
    if ts != [] {
      var n := |ts| - 1;
      var pre := ts[..n];
      ScanLastWins(pre, k);
      ScanStep(ts, k);
      assert forall i :: 0 <= i < n ==> pre[i] == ts[i];
      if Classify(ts[n].url) != Some(k) {
        if ScanTabs(ts).Get(k).Some? {
          var i :| 0 <= i < |pre| && Classify(pre[i].url) == Some(k) && ScanTabs(pre).Get(k) == Some(pre[i].id)
                   && forall j :: i < j < |pre| ==> Classify(pre[j].url) != Some(k);
          assert Classify(ts[i].url) == Some(k) && ScanTabs(ts).Get(k) == Some(ts[i].id);
        }
      } else {
        assert ScanTabs(ts).Get(k) == Some(ts[n].id);
      }
    }
  }

  /** `Object.values(state.activeTabs).filter(id => id !== null)`, in key order. */
  function UniqueAgentTabIds(t: ActiveTabs): seq<TabId> {
    (if t.gemini.Some? then [t.gemini.value] else [])
    + (if t.claude.Some? then [t.claude.value] else [])
    + (if t.gpt.Some? then [t.gpt.value] else [])
    + (if t.aistudio.Some? then [t.aistudio.value] else [])
  }

  /** The tabs grouped are exactly the bound ids, at most one per site. A tab
      id of `0` passes this test although it is falsy everywhere else. */
  lemma UniqueAgentTabIdsSpec(t: ActiveTabs, id: TabId)
    ensures id in UniqueAgentTabIds(t) <==> exists k :: t.Get(k) == Some(id)
    ensures |UniqueAgentTabIds(t)| <= 4
  {
    if id in UniqueAgentTabIds(t) {
      if t.gemini == Some(id) { assert t.Get(Gemini) == Some(id); }
      else if t.claude == Some(id) { assert t.Get(Claude) == Some(id); }
      else if t.gpt == Some(id) { assert t.Get(Gpt) == Some(id); }
      else { assert t.Get(AiStudio) == Some(id); }
    }
  }

  /** `scanForTabs()` over the tabs `chrome.tabs.query` returned: the
      bindings are rebuilt from scratch, the bound ids are what is handed to
      `chrome.tabs.group`, and presence is re-announced when connected. */
  method ScanForTabs(s: Session, tabs: seq<Tab>, usernameInput: string, open: set<ConnId>)
    returns (grouped: seq<TabId>)
    requires s.RosterValid()
    modifies s`activeTabs, s`peerRoster, s`rosterOrder, s`outbox
    ensures s.RosterValid()
    ensures s.activeTabs == ScanTabs(tabs)
    ensures grouped == UniqueAgentTabIds(s.activeTabs)
    ensures !(s.lanConnected && s.peer.Some?) ==>
              s.peerRoster == old(s.peerRoster) && s.rosterOrder == old(s.rosterOrder)
              && s.outbox == old(s.outbox)
    ensures s.lanConnected && s.peer.Some? ==>
              var p := OwnPresence(s.peer.value, usernameInput, s.activeTabs, s.isHost);
              && s.peerRoster == old(s.peerRoster)[s.peer.value := p]
              && s.rosterOrder == (if s.peer.value in old(s.rosterOrder) then old(s.rosterOrder)
                                   else old(s.rosterOrder) + [s.peer.value])
              && s.outbox == old(s.outbox)
                             + Fanout(BroadcastTargets(s.isHost, s.connections, s.hostConn, open),
                                      Presence(Some(p)))
  {
    s.activeTabs := NoTabs;
    var i := 0;
    while i < |tabs|
      invariant 0 <= i <= |tabs|
      invariant s.activeTabs == ScanTabs(tabs[..i])
      invariant s.peerRoster == old(s.peerRoster) && s.rosterOrder == old(s.rosterOrder)
      invariant s.outbox == old(s.outbox)
    {
      assert tabs[..i + 1][..i] == tabs[..i];
      var tab := tabs[i];
      var kind := Classify(tab.url);
      if kind.Some? {
        s.activeTabs := s.activeTabs.With(kind.value, Some(tab.id));
      }
      i := i + 1;
    }
    assert tabs[..|tabs|] == tabs;
    grouped := UniqueAgentTabIds(s.activeTabs);
    if s.lanConnected {
      BroadcastPresence(s, usernameInput, open);
    }
  }

  const ContextHeader: string := "\n\n--- PREVIOUS ROUNDTABLE CONTEXT ---\n"
  const ContextFooter: string := "--- END CONTEXT ---\n(Resuming discussion...)\n\n"

  /** One entry as the context block shows it. */
  function ContextLine(e: Entry): string {
    "[" + e.sender + "]: " + e.text + "\n\n"
  }

  /** Smart context leaves out the target agent's own entries (exact match
      on the sender). */
  predicate Omitted(e: Entry, smart: bool, target: string) {
    smart && e.sender == target
  }

  /** The entries of `h` the block shows, in log order. */
  function Included(h: seq<Entry>, smart: bool, target: string): (r: seq<Entry>)
    ensures |r| <= |h|
    decreases |h|
  {
    if h == [] then []
    else
      var e := h[|h| - 1];
      Included(h[..|h| - 1], smart, target) + (if Omitted(e, smart, target) then [] else [e])
  }

  /** The shown entries, one line each, concatenated. */
  function Lines(es: seq<Entry>): string
    decreases |es|
  {
    if es == [] then [] else Lines(es[..|es| - 1]) + ContextLine(es[|es| - 1])
  }

  /** What `getContextBlockForAgent(target)` returns for the log `h`. */
  function ContextBlock(h: seq<Entry>, includeHistory: bool, smart: bool, target: string): string {
    if !includeHistory || h == [] then ""
    else
      var shown := Included(h, smart, target);
      if shown == [] then "" else ContextHeader + Lines(shown) + ContextFooter
  }

  /** An entry is shown exactly when it is in the log and not omitted. */
  lemma {:induction false} IncludedMembers(h: seq<Entry>, smart: bool, target: string)
    ensures forall e :: e in Included(h, smart, target) <==> e in h && !Omitted(e, smart, target)
    decreases |h|
  {
    if h != [] {
      IncludedMembers(h[..|h| - 1], smart, target);
      assert h == h[..|h| - 1] + [h[|h| - 1]];
    }
  }

  /** Without smart context every entry is shown, in order. */
  lemma {:induction false} IncludedAll(h: seq<Entry>, target: string)
    ensures Included(h, false, target) == h
    decreases |h|
  {
    if h != [] {
      IncludedAll(h[..|h| - 1], target);
      assert h == h[..|h| - 1] + [h[|h| - 1]];
    }
  }

  /** The block is empty exactly when history is off or every entry is the
      target's own under smart context; otherwise it is header, lines, footer. */
  lemma ContextBlockEmpty(h: seq<Entry>, includeHistory: bool, smart: bool, target: string)
    ensures ContextBlock(h, includeHistory, smart, target) == ""
            <==> !includeHistory || forall i :: 0 <= i < |h| ==> Omitted(h[i], smart, target)
    ensures ContextBlock(h, includeHistory, smart, target) != "" ==>
              ContextBlock(h, includeHistory, smart, target)
              == ContextHeader + Lines(Included(h, smart, target)) + ContextFooter
  {
    IncludedMembers(h, smart, target);
    var shown := Included(h, smart, target);
    if includeHistory && h != [] && shown == [] {
      forall i | 0 <= i < |h| ensures Omitted(h[i], smart, target) {
        assert h[i] !in shown;
      }
    }
    if includeHistory && shown != [] {
      assert shown[0] in h && !Omitted(shown[0], smart, target);
      assert ContextBlock(h, includeHistory, smart, target) == ContextHeader + Lines(shown) + ContextFooter;
      assert |ContextBlock(h, includeHistory, smart, target)| >= |ContextHeader|;
    }
  }

  /** One more step of the context loop, for text `pre` accumulated before
      the lines. */
  lemma ContextStep(h: seq<Entry>, i: nat, smart: bool, target: string, pre: string)
    requires i < |h|
    ensures Omitted(h[i], smart, target) ==> Included(h[..i + 1], smart, target) == Included(h[..i], smart, target)
    ensures !Omitted(h[i], smart, target) ==>
              && pre + Lines(Included(h[..i + 1], smart, target))
                 == (pre + Lines(Included(h[..i], smart, target))) + ContextLine(h[i])
              && |Included(h[..i + 1], smart, target)| == |Included(h[..i], smart, target)| + 1
  {
    assert h[..i + 1][..i] == h[..i];
    var es := Included(h[..i], smart, target) + [h[i]];
    assert es[..|es| - 1] == Included(h[..i], smart, target);
    assert (pre + Lines(Included(h[..i], smart, target))) + ContextLine(h[i])
           == pre + (Lines(Included(h[..i], smart, target)) + ContextLine(h[i]));
  }

  /** `getContextBlockForAgent(targetAgentName)`, reading the two checkboxes
      from `panel`. */
  method GetContextBlockForAgent(s: Session, target: string, panel: Panel) returns (r: string)
    ensures r == ContextBlock(s.chatHistory, panel.includeHistory, panel.smartContext, target)
  {
    var h := s.chatHistory;
    if !panel.includeHistory || |h| == 0 {
      return "";
    }
    var smart := panel.smartContext;
    var context := ContextHeader;
    var count := 0;
    var i := 0;
    while i < |h|
      invariant 0 <= i <= |h|
      invariant context == ContextHeader + Lines(Included(h[..i], smart, target))
      invariant count == |Included(h[..i], smart, target)|
    {
      ContextStep(h, i, smart, target, ContextHeader);
      if !Omitted(h[i], smart, target) {
        context := context + ContextLine(h[i]);
        count := count + 1;
      }
      i := i + 1;
    }
    assert h[..|h|] == h;
    if count == 0 {
      return "";
    }
    r := context + ContextFooter;
  }

  /** The name in the agent configuration (also the sender of its harvested
      entries). */
  function ConfigName(k: AgentKey): string {
    match k
    case Gemini => "Gemini (App)"
    case Claude => "Claude"
    case Gpt => "ChatGPT"
    case AiStudio => "AI Studio"
  }

  /** The configuration key, used as the `type` of harvested entries. */
  function ConfigKey(k: AgentKey): string {
    match k
    case Gemini => "gemini"
    case Claude => "claude"
    case Gpt => "gpt"
    case AiStudio => "aistudio"
  }

  /** An agent takes part when its tab binding is truthy and its checkbox
      exists and is checked. */
  predicate Selected(tabs: ActiveTabs, panel: Panel, k: AgentKey) {
    Bound(tabs.Get(k)) && k in panel.checked
  }

  /** One `chrome.tabs.sendMessage(tab, req(k))` per selected agent of `ks`, in order. */
  function SendPlan(ks: seq<AgentKey>, tabs: ActiveTabs, panel: Panel,
                    req: AgentKey -> TabRequest): (r: seq<(TabId, TabRequest)>)
    ensures |r| <= |ks|
    decreases |ks|
  {
    if ks == [] then []
    else
      var k := ks[|ks| - 1];
      SendPlan(ks[..|ks| - 1], tabs, panel, req)
      + (if Selected(tabs, panel, k) then [(tabs.Get(k).value, req(k))] else [])
  }

  /** A request is sent exactly to the bound tab of a selected agent and
      carries that agent's request. */
  lemma {:induction false} SendPlanMembers(ks: seq<AgentKey>, tabs: ActiveTabs, panel: Panel,
                                           req: AgentKey -> TabRequest, t: TabId, q: TabRequest)
    ensures (t, q) in SendPlan(ks, tabs, panel, req)
            <==> exists k :: k in ks && Selected(tabs, panel, k) && tabs.Get(k) == Some(t) && q == req(k)
    decreases |ks|
  {
    if ks != [] {
      var k := ks[|ks| - 1];
      SendPlanMembers(ks[..|ks| - 1], tabs, panel, req, t, q);
      assert ks == ks[..|ks| - 1] + [k];
    }
  }

  /** The prompt an agent is sent: its context block, then the raw prompt. */
  function PromptFor(h: seq<Entry>, panel: Panel, k: AgentKey, rawPrompt: string): string {
    ContextBlock(h, panel.includeHistory, panel.smartContext, ConfigName(k)) + rawPrompt
  }

  /** The `DISTRIBUTE_PROMPT` requests `distributeToAgents(rawPrompt)` sends
      while the log is `h`. */
  function PromptPlan(h: seq<Entry>, tabs: ActiveTabs, panel: Panel, rawPrompt: string): seq<(TabId, TabRequest)> {
    SendPlan(AgentOrder, tabs, panel, PromptRequest(h, panel, rawPrompt))
  }

  /** The `DISTRIBUTE_PROMPT` request for each agent while the log is `h`. */
  function PromptRequest(h: seq<Entry>, panel: Panel, rawPrompt: string): AgentKey -> TabRequest {
    k => DistributePrompt(PromptFor(h, panel, k, rawPrompt))
  }

  /** One step of a send loop over the configuration order. */
  lemma SendPlanStep(i: nat, tabs: ActiveTabs, panel: Panel, req: AgentKey -> TabRequest)
    requires i < |AgentOrder|
    ensures SendPlan(AgentOrder[..i + 1], tabs, panel, req)
            == SendPlan(AgentOrder[..i], tabs, panel, req)
               + (if Selected(tabs, panel, AgentOrder[i]) then [(tabs.Get(AgentOrder[i]).value, req(AgentOrder[i]))] else [])
  {
    assert AgentOrder[..i + 1][..i] == AgentOrder[..i];
  }

  /** `distributeToAgents(rawPrompt)`: every selected agent, in configuration
      order, is sent its context block followed by the raw prompt. */
  method DistributeToAgents(s: Session, rawPrompt: string, panel: Panel)
    modifies s`tabOutbox
    ensures s.tabOutbox == old(s.tabOutbox) + PromptPlan(s.chatHistory, s.activeTabs, panel, rawPrompt)
  {
    var h := s.chatHistory;
    var tabs := s.activeTabs;
    ghost var start := s.tabOutbox;
    var i := 0;
    while i < |AgentOrder|
      invariant 0 <= i <= |AgentOrder|
      invariant s.tabOutbox == start + SendPlan(AgentOrder[..i], tabs, panel, PromptRequest(h, panel, rawPrompt))
    {
      var k := AgentOrder[i];
      SendPlanStep(i, tabs, panel, PromptRequest(h, panel, rawPrompt));
      if Selected(tabs, panel, k) {
        var context := GetContextBlockForAgent(s, ConfigName(k), panel);
        assert DistributePrompt(context + rawPrompt) == PromptRequest(h, panel, rawPrompt)(k);
        s.tabOutbox := s.tabOutbox + [(tabs.Get(k).value, DistributePrompt(context + rawPrompt))];
      }
      i := i + 1;
    }
    assert AgentOrder[..|AgentOrder|] == AgentOrder;
  }

  /** The request `harvestResponses()` sends each agent. */
  function HarvestRequest(k: AgentKey): TabRequest {
    HarvestLatest
  }

  /** The `HARVEST_LATEST` requests `harvestResponses()` sends. */
  function HarvestPlan(tabs: ActiveTabs, panel: Panel): seq<(TabId, TabRequest)> {
    SendPlan(AgentOrder, tabs, panel, HarvestRequest)
  }

  /** `harvestResponses()`, the requests: every selected agent's tab is asked
      for its latest reply. */
  method HarvestResponses(s: Session, panel: Panel)
    modifies s`tabOutbox
    ensures s.tabOutbox == old(s.tabOutbox) + HarvestPlan(s.activeTabs, panel)
  {
    var tabs := s.activeTabs;
    ghost var start := s.tabOutbox;
    var i := 0;
    while i < |AgentOrder|
      invariant 0 <= i <= |AgentOrder|
      invariant s.tabOutbox == start + SendPlan(AgentOrder[..i], tabs, panel, HarvestRequest)
    {
      var k := AgentOrder[i];
      SendPlanStep(i, tabs, panel, HarvestRequest);
      if Selected(tabs, panel, k) {
        s.tabOutbox := s.tabOutbox + [(tabs.Get(k).value, HarvestLatest)];
      }
      i := i + 1;
    }
    assert AgentOrder[..|AgentOrder|] == AgentOrder;
  }

  /** `chatHistory.slice().reverse().find(m => m.sender === name)`. */
  function LastFrom(h: seq<Entry>, name: string): Option<Entry>
    decreases |h|
  {
    if h == [] then None
    else if h[|h| - 1].sender == name then Some(h[|h| - 1])
    else LastFrom(h[..|h| - 1], name)
  }

  /** The lookup finds the newest entry from `name`, and nothing exactly
      when `name` has no entry. */
  lemma {:induction false} LastFromSpec(h: seq<Entry>, name: string)
    ensures LastFrom(h, name).None? <==> forall i :: 0 <= i < |h| ==> h[i].sender != name
    ensures LastFrom(h, name).Some? ==>
              exists i :: 0 <= i < |h| && LastFrom(h, name) == Some(h[i]) && h[i].sender == name
                          && forall j :: i < j < |h| ==> h[j].sender != name
    decreases |h|
  {
    if h != [] && h[|h| - 1].sender != name {
      var pre := h[..|h| - 1];
      LastFromSpec(pre, name);
      assert forall i :: 0 <= i < |pre| ==> pre[i] == h[i];
      if LastFrom(h, name).Some? {
        var i :| 0 <= i < |pre| && LastFrom(pre, name) == Some(pre[i]) && pre[i].sender == name
                 && forall j :: i < j < |pre| ==> pre[j].sender != name;
        assert LastFrom(h, name) == Some(h[i]);
      }
    }
  }

  /** The duplicate test of the harvest callback: the newest entry from the
      agent has exactly the harvested text. */
  predicate IsDuplicate(h: seq<Entry>, name: string, text: string) {
    var last := LastFrom(h, name);
    last.Some? && last.value.text == text
  }

  /** The harvest callback for agent `k`. `reply` is `Some(res.text)` when the
      tab answered with `success`, and `None` on an error or any other answer.
      A reply is added as the agent's entry unless it duplicates the agent's
      newest entry. */
  method OnHarvestReply(s: Session, k: AgentKey, reply: Option<string>, now: int, open: set<ConnId>)
    modifies s`chatHistory, s`saves, s`outbox
    ensures reply.None? || IsDuplicate(old(s.chatHistory), ConfigName(k), reply.value) || AllSpace(reply.value) ==>
              s.chatHistory == old(s.chatHistory) && s.saves == old(s.saves) && s.outbox == old(s.outbox)
    ensures reply.Some? && !IsDuplicate(old(s.chatHistory), ConfigName(k), reply.value) && !AllSpace(reply.value) ==>
              && s.chatHistory == old(s.chatHistory) + [NewEntry(ConfigName(k), reply.value, ConfigKey(k), now)]
              && s.saves == old(s.saves) + 1
              && s.outbox == old(s.outbox)
                             + if s.lanConnected
                               then Fanout(BroadcastTargets(s.isHost, s.connections, s.hostConn, open),
                                           NewMessage(Some(NewEntry(ConfigName(k), reply.value, ConfigKey(k), now))))
                               else []
  {
    if reply.Some? {
      var isDup := IsDuplicate(s.chatHistory, ConfigName(k), reply.value);
      if !isDup {
        AddMessage(s, ConfigName(k), reply.value, ConfigKey(k), false, now, open);
      }
    }
  }

  /** Appending an agent's entry makes it the agent's newest; a second
      harvest of the same reply is therefore suppressed exactly when storing
      left the text unchanged. */
  lemma HarvestAgainDuplicate(h: seq<Entry>, name: string, text: string, kind: string, now: int)
    ensures LastFrom(h + [NewEntry(name, text, kind, now)], name) == Some(NewEntry(name, text, kind, now))
    ensures IsDuplicate(h + [NewEntry(name, text, kind, now)], name, text) <==> NormalizeText(text) == text
  {
    var h' := h + [NewEntry(name, text, kind, now)];
    assert h'[|h'| - 1] == NewEntry(name, text, kind, now);
  }

  /** A reply with a boilerplate prefix: it is stored without the prefix. */
  lemma AnswerReplyStored()
    ensures NormalizeText("Answer:42") == "42"
  {
    var t := "Answer:42";
    assert Trim(t) == t by {
      TrimStartNoop(t);
      TrimEndNoop(t);
    }
    assert BoilerplateLength(t) == 7 by {
      AnswerPrefixLength(t);
    }
    assert Trim(t[7..]) == "42" by {
      assert t[7..] == "42";
      TrimStartNoop("42");
      TrimEndNoop("42");
    }
  }

  /** The same reply harvested twice is appended twice: the test compares the
      raw reply with the stored, already stripped text. */
  lemma HarvestTwiceAppendsTwice(h: seq<Entry>, now: int)
    ensures var e := NewEntry(ConfigName(Gpt), "Answer:42", ConfigKey(Gpt), now);
            !IsDuplicate(h + [e], ConfigName(Gpt), "Answer:42")
  {
    AnswerReplyStored();
    HarvestAgainDuplicate(h, ConfigName(Gpt), "Answer:42", ConfigKey(Gpt), now);
  }

  /** The duplicate test as evidently intended: the reply is compared with
      the newest entry after the same normalisation storing applies. */
  predicate IsDuplicateStored(h: seq<Entry>, name: string, text: string) {
    var last := LastFrom(h, name);
    last.Some? && last.value.text == NormalizeText(text)
  }

  /** With the corrected test a reply harvested again right after it was
      stored is always suppressed, and for text storing leaves unchanged the
      two tests agree. */
  lemma HarvestStoredIdempotent(h: seq<Entry>, name: string, text: string, kind: string, now: int)
    ensures IsDuplicateStored(h + [NewEntry(name, text, kind, now)], name, text)
    ensures NormalizeText(text) == text ==> (IsDuplicateStored(h, name, text) <==> IsDuplicate(h, name, text))
  {
    HarvestAgainDuplicate(h, name, text, kind, now);
  }

  /** The harvest callback with the corrected duplicate test. */
  method OnHarvestReplyStored(s: Session, k: AgentKey, reply: Option<string>, now: int, open: set<ConnId>)
    modifies s`chatHistory, s`saves, s`outbox
    ensures reply.None? || IsDuplicateStored(old(s.chatHistory), ConfigName(k), reply.value) || AllSpace(reply.value) ==>
              s.chatHistory == old(s.chatHistory) && s.saves == old(s.saves) && s.outbox == old(s.outbox)
    ensures reply.Some? && !IsDuplicateStored(old(s.chatHistory), ConfigName(k), reply.value) && !AllSpace(reply.value) ==>
              && s.chatHistory == old(s.chatHistory) + [NewEntry(ConfigName(k), reply.value, ConfigKey(k), now)]
              && s.saves == old(s.saves) + 1
              && s.outbox == old(s.outbox)
                             + if s.lanConnected
                               then Fanout(BroadcastTargets(s.isHost, s.connections, s.hostConn, open),
                                           NewMessage(Some(NewEntry(ConfigName(k), reply.value, ConfigKey(k), now))))
                               else []
  {
    if reply.Some? {
      var isDup := IsDuplicateStored(s.chatHistory, ConfigName(k), reply.value);
      if !isDup {
        AddMessage(s, ConfigName(k), reply.value, ConfigKey(k), false, now, open);
      }
    }
  }

  /** `broadcastPrompt()`: whitespace-only input does nothing; otherwise the
      prompt is first logged as a `user` entry from the trimmed username (or
      `You`), then the untrimmed prompt is distributed, so each agent's
      context already holds that entry. */
  method BroadcastPrompt(s: Session, rawPrompt: string, panel: Panel, now: int, open: set<ConnId>)
    modifies s`chatHistory, s`saves, s`outbox, s`tabOutbox
    ensures AllSpace(rawPrompt) ==>
              s.chatHistory == old(s.chatHistory) && s.saves == old(s.saves)
              && s.outbox == old(s.outbox) && s.tabOutbox == old(s.tabOutbox)
    ensures !AllSpace(rawPrompt) ==>
              s.chatHistory == old(s.chatHistory) + [NewEntry(DisplayName(panel.username, "You"), rawPrompt, UserKind, now)]
    ensures !AllSpace(rawPrompt) ==> s.saves == old(s.saves) + 1
    ensures !AllSpace(rawPrompt) ==>
              s.outbox == old(s.outbox)
                          + (if s.lanConnected
                             then Fanout(BroadcastTargets(s.isHost, s.connections, s.hostConn, open),
                                         NewMessage(Some(NewEntry(DisplayName(panel.username, "You"), rawPrompt, UserKind, now))))
                             else [])
    ensures !AllSpace(rawPrompt) ==>
              s.tabOutbox == old(s.tabOutbox) + PromptPlan(s.chatHistory, s.activeTabs, panel, rawPrompt)
  {
    TrimEmptyIffAllSpace(rawPrompt);
    if Trim(rawPrompt) == [] {
      return;
    }
    var username := DisplayName(panel.username, "You");
    AddMessage(s, username, rawPrompt, UserKind, false, now, open);
    DistributeToAgents(s, rawPrompt, panel);
  }
}
