/** The side panel's single mutable session record, its initial value, its
    field setters and the history-replacement rule applied on load. */
module State {
  import opened Wire

  /** The four agent sites, in the fixed order of the agent configuration. */
  datatype AgentKey = Gemini | Claude | Gpt | AiStudio

  const AgentOrder: seq<AgentKey> := [Gemini, Claude, Gpt, AiStudio]

  /** The tab bound to each agent site, if any. */
  datatype ActiveTabs = ActiveTabs(gemini: Option<TabId>, claude: Option<TabId>,
                                   gpt: Option<TabId>, aistudio: Option<TabId>)
  {
    function Get(k: AgentKey): Option<TabId> {
      match k
      case Gemini => gemini
      case Claude => claude
      case Gpt => gpt
      case AiStudio => aistudio
    }

    function With(k: AgentKey, t: Option<TabId>): (r: ActiveTabs)
      ensures r.Get(k) == t
      ensures forall k' :: k' != k ==> r.Get(k') == Get(k')
    {
      match k
      case Gemini => this.(gemini := t)
      case Claude => this.(claude := t)
      case Gpt => this.(gpt := t)
      case AiStudio => this.(aistudio := t)
    }
  }

  const NoTabs: ActiveTabs := ActiveTabs(None, None, None, None)

  /** JavaScript truthiness of a bound tab id: `null` and `0` are falsy. */
  predicate Bound(t: Option<TabId>) {
    t.Some? && t.value != 0
  }

  /** The panel's form controls as they read when a handler runs: the
      username field, the two context checkboxes, and the agent checkboxes
      that exist and are checked. */
  datatype Panel = Panel(username: string, includeHistory: bool, smartContext: bool,
                         checked: set<AgentKey>)

  class Session {
    var activeTabs: ActiveTabs
    var peer: Option<PeerId>
    /** Host only: the guest connections, in the order they were set up. */
    var connections: seq<ConnId>
    /** Guest only: the connection to the host. */
    var hostConn: Option<ConnId>
    var lanConnected: bool
    var isHost: bool
    var peerRoster: map<PeerId, PresencePayload>
    /** The property order of the `peerRoster` object: keys in first-insertion order. */
    var rosterOrder: seq<PeerId>
    var chatHistory: seq<Entry>

    /** Calls of `saveState` (a write to extension storage). */
    ghost var saves: nat
    /** Confirmation dialogs shown. */
    ghost var confirms: nat
    /** Every `conn.send(data)`, in order. */
    ghost var outbox: seq<(ConnId, Message)>
    /** Every `chrome.tabs.sendMessage(tab, request)`, in order. */
    ghost var tabOutbox: seq<(TabId, TabRequest)>
    /** Peers torn down with `peer.destroy()`. */
    ghost var destroyedPeers: seq<PeerId>
    /** Host ids dialled with `peer.connect`. */
    ghost var dialled: seq<PeerId>

    /** `rosterOrder` lists each key of `peerRoster` exactly once. */
    ghost predicate RosterValid()
      reads this`peerRoster, this`rosterOrder
    {
      && (forall i, j :: 0 <= i < j < |rosterOrder| ==> rosterOrder[i] != rosterOrder[j])
      && (forall id :: id in peerRoster <==> id in rosterOrder)
    }

    /** The record's initial value. */
    constructor ()
      ensures activeTabs == NoTabs
      ensures peer == None && hostConn == None
      ensures connections == [] && peerRoster == map[] && rosterOrder == []
      ensures !lanConnected && !isHost
      ensures chatHistory == []
      ensures saves == 0 && confirms == 0 && outbox == [] && tabOutbox == []
      ensures destroyedPeers == [] && dialled == []
      ensures RosterValid()
    {
      activeTabs := NoTabs;
      peer, hostConn := None, None;
      connections, peerRoster, rosterOrder := [], map[], [];
      lanConnected, isHost := false, false;
      chatHistory := [];
      saves, confirms, outbox, tabOutbox := 0, 0, [], [];
      destroyedPeers, dialled := [], [];
    }

    method SetPeer(p: Option<PeerId>)
      modifies this`peer
      ensures peer == p
    {
      peer := p;
    }

    method SetLanConnected(v: bool)
      modifies this`lanConnected
      ensures lanConnected == v
    {
      lanConnected := v;
    }

    method SetIsHost(v: bool)
      modifies this`isHost
      ensures isHost == v
    {
      isHost := v;
    }

    method SetHostConn(c: Option<ConnId>)
      modifies this`hostConn
      ensures hostConn == c
    {
      hostConn := c;
    }

    /** The write `saveState()` makes, counted. */
    method SaveState()
      modifies this`saves
      ensures saves == old(saves) + 1
    {
      saves := saves + 1;
    }

    /** `loadState`: a stored history (any array, even an empty one, is
        truthy) replaces the log; without one the log is kept. */
    method LoadState(stored: Option<seq<Entry>>)
      modifies this`chatHistory
      ensures stored.Some? ==> chatHistory == stored.value
      ensures stored.None? ==> chatHistory == old(chatHistory)
    {
      if stored.Some? {
        chatHistory := stored.value;
      }
    }

    /** `peerRoster[id] = p`: the entry is replaced wholesale; a new key goes
        last in property order, an existing key keeps its place. */
    method PutRoster(id: PeerId, p: PresencePayload)
      requires RosterValid()
      modifies this`peerRoster, this`rosterOrder
      ensures RosterValid()
      ensures peerRoster == old(peerRoster)[id := p]
      ensures rosterOrder == if id in old(rosterOrder) then old(rosterOrder) else old(rosterOrder) + [id]
    {
      peerRoster := peerRoster[id := p];
      if id !in rosterOrder {
        rosterOrder := rosterOrder + [id];
      }
    }
  }
}
