/** `broadcastPresence`: the peer's own roster entry, announced to the room. */
module Presence {
  import opened JsText
  import opened Wire
  import opened State
  import opened Lan

  /** The name an agent site goes by in a presence announcement. */
  function AgentLabel(k: AgentKey): string {
    match k
    case Gemini => "Gemini"
    case Claude => "Claude"
    case Gpt => "ChatGPT"
    case AiStudio => "AI Studio"
  }

  /** The labels of the agents of `ks` whose tab is bound, in the order of `ks`. */
  function BoundLabels(ks: seq<AgentKey>, tabs: ActiveTabs): (r: seq<string>)
    ensures |r| <= |ks|
    decreases |ks|
  {
    if ks == [] then []
    else
      var k := ks[|ks| - 1];
      BoundLabels(ks[..|ks| - 1], tabs) + (if Bound(tabs.Get(k)) then [AgentLabel(k)] else [])
  }

  /** The `agents` list: one `if (state.activeTabs.x) agents.push(...)` per site. */
  function PresenceAgents(tabs: ActiveTabs): seq<string> {
    (if Bound(tabs.gemini) then ["Gemini"] else [])
    + (if Bound(tabs.claude) then ["Claude"] else [])
    + (if Bound(tabs.gpt) then ["ChatGPT"] else [])
    + (if Bound(tabs.aistudio) then ["AI Studio"] else [])
  }

  /** A label names exactly one site. */
  lemma AgentLabelInjective(k: AgentKey, k': AgentKey)
    ensures AgentLabel(k) == AgentLabel(k') <==> k == k'
  {
    if k != k' {
      assert AgentLabel(k)[0] != AgentLabel(k')[0] || AgentLabel(k)[1] != AgentLabel(k')[1];
    }
  }

  /** A label is listed by `BoundLabels` exactly when its site is in `ks` and bound. */
  lemma {:induction false} BoundLabelsMembers(ks: seq<AgentKey>, tabs: ActiveTabs, k: AgentKey)
    ensures AgentLabel(k) in BoundLabels(ks, tabs) <==> k in ks && Bound(tabs.Get(k))
    decreases |ks|
  {
    if ks != [] {
      var last := ks[|ks| - 1];
      BoundLabelsMembers(ks[..|ks| - 1], tabs, k);
      AgentLabelInjective(k, last);
      assert ks == ks[..|ks| - 1] + [last];
    }
  }

  /** The announced list is the bound sites' labels in the fixed order Gemini,
      Claude, ChatGPT, AI Studio: each bound site once, no unbound one. */
  lemma PresenceAgentsSpec(tabs: ActiveTabs)
    ensures PresenceAgents(tabs) == BoundLabels(AgentOrder, tabs)
    ensures forall k :: AgentLabel(k) in PresenceAgents(tabs) <==> Bound(tabs.Get(k))
  {
    assert AgentOrder[..3] == [Gemini, Claude, Gpt];
    assert [Gemini, Claude, Gpt][..2] == [Gemini, Claude];
    assert [Gemini, Claude][..1] == [Gemini];
    assert [Gemini][..0] == [];
    forall k ensures AgentLabel(k) in PresenceAgents(tabs) <==> Bound(tabs.Get(k)) {
      BoundLabelsMembers(AgentOrder, tabs, k);
    }
  }

  /** `input.trim() || fallback`. */
  function DisplayName(input: string, fallback: string): (r: string)
    ensures Trim(input) != [] ==> r == Trim(input)
    ensures AllSpace(input) ==> r == fallback
  {
    TrimEmptyIffAllSpace(input);
    if Trim(input) == [] then fallback else Trim(input)
  }

  /** The display name never carries surrounding whitespace, and is never
      empty while the fallback is not. */
  lemma DisplayNameShape(input: string, fallback: string)
    requires fallback != []
    ensures DisplayName(input, fallback) != []
    ensures DisplayName(input, fallback) == fallback || Trim(DisplayName(input, fallback)) == DisplayName(input, fallback)
  {
    TrimIdempotent(input);
  }

  /** The payload `broadcastPresence` builds. */
  function OwnPresence(id: PeerId, usernameInput: string, tabs: ActiveTabs, isHost: bool): PresencePayload {
    PresencePayload(id, DisplayName(usernameInput, "Anonymous"), PresenceAgents(tabs), isHost)
  }

  /** `broadcastPresence()`: a no-op unless connected and holding a peer;
      otherwise the own entry is stored under the own id (replacing any
      earlier one) and then announced with `lanBroadcast`. */
  method BroadcastPresence(s: Session, usernameInput: string, open: set<ConnId>)
    requires s.RosterValid()
    modifies s`peerRoster, s`rosterOrder, s`outbox
    ensures s.RosterValid()
    ensures !(s.lanConnected && s.peer.Some?) ==>
              s.peerRoster == old(s.peerRoster) && s.rosterOrder == old(s.rosterOrder)
              && s.outbox == old(s.outbox)
    ensures s.lanConnected && s.peer.Some? ==>
              var p := OwnPresence(s.peer.value, usernameInput, s.activeTabs, s.isHost);
              && s.peerRoster == old(s.peerRoster)[s.peer.value := p]
              && s.rosterOrder == (if s.peer.value in old(s.rosterOrder) then old(s.rosterOrder)
                                   else old(s.rosterOrder) + [s.peer.value])
              && s.outbox == old(s.outbox)
                             + Fanout(BroadcastTargets(s.isHost, s.connections, s.hostConn, open),
                                      Presence(Some(p)))
  {
    if !s.lanConnected || s.peer.None? {
      return;
    }
    var p := OwnPresence(s.peer.value, usernameInput, s.activeTabs, s.isHost);
    s.PutRoster(s.peer.value, p);
    LanBroadcast(s, Presence(Some(p)), open);
  }
}
