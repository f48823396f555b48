/** The peer-to-peer session: switching role, the connection lifecycle on
    host and guest, the host's bootstrap of a new guest, and the handler for
    messages arriving on a data connection. Each handler is one atomic step;
    a `setTimeout` callback is a later step of its own. */
module P2p {
  import opened JsText
  import opened Wire
  import opened State
  import opened Lan
  import opened Chat
  import opened Presence
  import opened Agents

  /** `startLanSession(hostMode, ...)`: the role is set, a previous peer is
      torn down, and the new peer object `created` takes its place. Nothing
      else of the session is reset: connections, `hostConn`,
      `lanConnected` and the roster keep their values. */
  method StartLanSession(s: Session, hostMode: bool, created: PeerId)
    modifies s`isHost, s`peer, s`destroyedPeers
    ensures s.isHost == hostMode
    ensures s.peer == Some(created)
    ensures s.destroyedPeers == old(s.destroyedPeers) + (if old(s.peer).Some? then [old(s.peer).value] else [])
    ensures s.connections == old(s.connections) && s.hostConn == old(s.hostConn)
    ensures s.lanConnected == old(s.lanConnected) && s.peerRoster == old(s.peerRoster)
  {
    s.SetIsHost(hostMode);
    if s.peer.Some? {
      s.destroyedPeers := s.destroyedPeers + [s.peer.value];
      s.SetPeer(None);
    }
    s.SetPeer(Some(created));
  }

  /** `connectToHost(hostId)`: without a peer nothing happens; otherwise the
      host is dialled and `c`, the connection the transport hands back, is
      returned so that its events can be delivered. */
  method ConnectToHost(s: Session, hostId: PeerId, c: ConnId) returns (conn: Option<ConnId>)
    modifies s`dialled
    ensures s.peer.None? ==> conn == None && s.dialled == old(s.dialled)
    ensures s.peer.Some? ==> conn == Some(c) && s.dialled == old(s.dialled) + [hostId]
  {
    if s.peer.None? {
      return None;
    }
    s.dialled := s.dialled + [hostId];
    conn := Some(c);
  }

  /** `peer.on('open')`: a host is connected at once and announces itself; a
      guest dials the room it was started with, and without a room id
      (`""`, as for `null`) only shows an alert. */
  method OnPeerOpen(s: Session, guestRoomId: string, usernameInput: string, c: ConnId, open: set<ConnId>)
    returns (conn: Option<ConnId>)
    requires s.RosterValid()
    modifies s`lanConnected, s`peerRoster, s`rosterOrder, s`outbox, s`dialled
    ensures s.RosterValid()
    ensures s.isHost ==> s.lanConnected && conn == None && s.dialled == old(s.dialled)
    ensures s.isHost && s.peer.Some? ==>
              var p := OwnPresence(s.peer.value, usernameInput, s.activeTabs, s.isHost);
              && s.peerRoster == old(s.peerRoster)[s.peer.value := p]
              && s.rosterOrder == (if s.peer.value in old(s.rosterOrder) then old(s.rosterOrder)
                                   else old(s.rosterOrder) + [s.peer.value])
              && s.outbox == old(s.outbox)
                             + Fanout(BroadcastTargets(s.isHost, s.connections, s.hostConn, open),
                                      Presence(Some(p)))
    ensures !(s.isHost && s.peer.Some?) ==>
              s.peerRoster == old(s.peerRoster) && s.rosterOrder == old(s.rosterOrder)
              && s.outbox == old(s.outbox)
    ensures !s.isHost ==> s.lanConnected == old(s.lanConnected)
    ensures !s.isHost && (guestRoomId == [] || s.peer.None?) ==> conn == None && s.dialled == old(s.dialled)
    ensures !s.isHost && guestRoomId != [] && s.peer.Some? ==>
              conn == Some(c) && s.dialled == old(s.dialled) + [guestRoomId]
  {
    conn := None;
    if s.isHost {
      s.SetLanConnected(true);
      BroadcastPresence(s, usernameInput, open);
    } else if guestRoomId != [] {
      conn := ConnectToHost(s, guestRoomId, c);
    }
  }

  /** `setupConnection(conn)`: a host adds the connection to its set and
      schedules the bootstrap (`HostBootstrap`, one second later); a guest
      only attaches the handlers. */
  method SetupConnection(s: Session, c: ConnId) returns (bootstrap: bool)
    modifies s`connections
    ensures s.connections == old(s.connections) + (if s.isHost then [c] else [])
    ensures bootstrap == s.isHost
  {
    if s.isHost {
      s.connections := s.connections + [c];
    }
    bootstrap := s.isHost;
  }

  /** `peer.on('connection')`: only a host accepts an incoming connection. */
  method OnIncomingConnection(s: Session, c: ConnId) returns (bootstrap: bool)
    modifies s`connections
    ensures s.isHost ==> s.connections == old(s.connections) + [c] && bootstrap
    ensures !s.isHost ==> s.connections == old(s.connections) && !bootstrap
  {
    bootstrap := false;
    if s.isHost {
      bootstrap := SetupConnection(s, c);
    }
  }

  /** The guest's `conn.on('open')` for the connection to the host: the guest
      is connected through `c`. Its own announcement follows one second
      later as a separate `BroadcastPresence` step. */
  method OnHostConnOpen(s: Session, c: ConnId)
    modifies s`lanConnected, s`hostConn, s`connections
    ensures s.lanConnected && s.hostConn == Some(c)
    ensures s.connections == old(s.connections) + (if s.isHost then [c] else [])
  {
    s.SetLanConnected(true);
    s.SetHostConn(Some(c));
    var _ := SetupConnection(s, c);
  }

  /** `cs.indexOf(c)`: the first position holding `c`, or -1. */
  function IndexOf(cs: seq<ConnId>, c: ConnId): (r: int)
    ensures -1 <= r < |cs|
    ensures r == -1 <==> c !in cs
    ensures r >= 0 ==> cs[r] == c && c !in cs[..r]
    decreases |cs|
  {
    if cs == [] then -1
    else if cs[0] == c then 0
    else
      var r := IndexOf(cs[1..], c);
      if r == -1 then -1
      else
        assert cs[..r + 1] == [cs[0]] + cs[1..][..r];
        r + 1
  }

  /** The connection set after a host-side close: `indexOf` then
      `splice(idx, 1)` when found. */
  function RemoveFirst(cs: seq<ConnId>, c: ConnId): seq<ConnId> {
    var i := IndexOf(cs, c);
    if i > -1 then cs[..i] + cs[i + 1..] else cs
  }

  /** A close removes exactly the first occurrence of the connection and
      keeps every other connection in order; an unknown connection changes
      nothing. */
  lemma RemoveFirstSpec(cs: seq<ConnId>, c: ConnId)
    ensures c !in cs ==> RemoveFirst(cs, c) == cs
    ensures c in cs ==>
              exists i :: 0 <= i < |cs| && cs[i] == c && c !in cs[..i]
                          && RemoveFirst(cs, c) == cs[..i] + cs[i + 1..]
    ensures multiset(RemoveFirst(cs, c)) == multiset(cs) - multiset{c}
  {
    var i := IndexOf(cs, c);
    if i > -1 {
      assert cs == cs[..i] + [c] + cs[i + 1..];
      assert multiset(cs) == multiset(cs[..i]) + multiset{c} + multiset(cs[i + 1..]);
    } else {
      assert multiset(cs)[c] == 0;
    }
  }

  /** Closing a connection that was just set up, and that was not yet in
      the set, gives the set back as it was. */
  lemma SetupThenCloseRestores(cs: seq<ConnId>, c: ConnId)
    requires c !in cs
    ensures RemoveFirst(cs + [c], c) == cs
  {
    assert (cs + [c])[..|cs|] == cs;
  }

  /** `conn.on('close')`: a host drops the connection from its set; a guest
      loses the room. */
  method OnConnectionClose(s: Session, c: ConnId)
    modifies s`connections, s`lanConnected, s`hostConn
    ensures s.isHost ==> s.connections == RemoveFirst(old(s.connections), c)
                         && s.lanConnected == old(s.lanConnected) && s.hostConn == old(s.hostConn)
    ensures !s.isHost ==> s.connections == old(s.connections) && !s.lanConnected && s.hostConn == None
  {
    if s.isHost {
      var idx := IndexOf(s.connections, c);
      if idx > -1 {
        s.connections := s.connections[..idx] + s.connections[idx + 1..];
      }
    } else {
      s.SetLanConnected(false);
      s.SetHostConn(None);
    }
  }

  /** The roster replay of the bootstrap: one `PRESENCE` to `c` per member of
      `roster`, in property order. */
  function RosterSends(c: ConnId, order: seq<PeerId>, roster: map<PeerId, PresencePayload>)
    : (r: seq<(ConnId, Message)>)
    requires forall id :: id in order ==> id in roster
    ensures |r| == |order|
    decreases |order|
  {
    if order == [] then []
    else
      RosterSends(c, order[..|order| - 1], roster)
      + [(c, Presence(Some(roster[order[|order| - 1]])))]
  }

  /** Send `i` of the replay carries the `i`-th member's entry. */
  lemma {:induction false} RosterSendsAt(c: ConnId, order: seq<PeerId>, roster: map<PeerId, PresencePayload>)
    requires forall id :: id in order ==> id in roster
    ensures forall i :: 0 <= i < |order| ==>
              RosterSends(c, order, roster)[i] == (c, Presence(Some(roster[order[i]])))
    decreases |order|
  {
    if order != [] {
      var init := order[..|order| - 1];
      assert forall id :: id in init ==> id in order;
      RosterSendsAt(c, init, roster);
    }
  }

  /** Every member listed in the order, the host itself included once it
      has announced itself, is replayed to the new guest. */
  lemma RosterReplayed(c: ConnId, order: seq<PeerId>, roster: map<PeerId, PresencePayload>, id: PeerId)
    requires forall id :: id in order ==> id in roster
    requires id in order
    ensures (c, Presence(Some(roster[id]))) in RosterSends(c, order, roster)
  {
    RosterSendsAt(c, order, roster);
    var i :| 0 <= i < |order| && order[i] == id;
    assert RosterSends(c, order, roster)[i] == (c, Presence(Some(roster[id])));
  }

  /** `Object.values(state.peerRoster).forEach(member => conn.send(...))`. */
  method SendRoster(s: Session, c: ConnId)
    requires s.RosterValid()
    modifies s`outbox
    ensures s.outbox == old(s.outbox) + RosterSends(c, s.rosterOrder, s.peerRoster)
  {
    var order := s.rosterOrder;
    var i := 0;
    while i < |order|
      invariant 0 <= i <= |order|
      invariant s.outbox == old(s.outbox) + RosterSends(c, order[..i], s.peerRoster)
    {
      assert order[..i + 1][..i] == order[..i];
      Send(s, c, Presence(Some(s.peerRoster[order[i]])));
      i := i + 1;
    }
    assert order[..|order|] == order;
  }

  /** The host's delayed bootstrap of a new guest on `c`: nothing when `c`
      has closed by then; otherwise the log snapshot to `c`, then the host's
      own presence to every open guest, then the roster (now including the
      host's fresh entry) to `c`, in this order. */
  method HostBootstrap(s: Session, c: ConnId, usernameInput: string, open: set<ConnId>)
    requires s.RosterValid()
    modifies s`peerRoster, s`rosterOrder, s`outbox
    ensures s.RosterValid()
    ensures c !in open ==>
              s.peerRoster == old(s.peerRoster) && s.rosterOrder == old(s.rosterOrder)
              && s.outbox == old(s.outbox)
    ensures c in open && s.lanConnected && s.peer.Some? ==>
              var p := OwnPresence(s.peer.value, usernameInput, s.activeTabs, s.isHost);
              && s.peerRoster == old(s.peerRoster)[s.peer.value := p]
              && s.rosterOrder == (if s.peer.value in old(s.rosterOrder) then old(s.rosterOrder)
                                   else old(s.rosterOrder) + [s.peer.value])
              && s.outbox == old(s.outbox) + [(c, SyncHistory(Some(s.chatHistory)))]
                             + Fanout(BroadcastTargets(s.isHost, s.connections, s.hostConn, open),
                                      Presence(Some(p)))
                             + RosterSends(c, s.rosterOrder, s.peerRoster)
    ensures c in open && !(s.lanConnected && s.peer.Some?) ==>
              s.peerRoster == old(s.peerRoster) && s.rosterOrder == old(s.rosterOrder)
              && s.outbox == old(s.outbox) + [(c, SyncHistory(Some(s.chatHistory)))]
                             + RosterSends(c, s.rosterOrder, s.peerRoster)
  {
    if c !in open {
      return;
    }
    Send(s, c, SyncHistory(Some(s.chatHistory)));
    BroadcastPresence(s, usernameInput, open);
    SendRoster(s, c);
  }

  /** The log after a received `data` is applied to the log `h` at time `now`. */
  function HistoryAfter(h: seq<Entry>, data: Message, now: int): seq<Entry> {
    match data
    case SyncHistory(Some(history)) => history
    case NewMessage(Some(e)) =>
      if AllSpace(e.text) then h else h + [NewEntry(e.sender, e.text, e.kind, now)]
    case DeleteMessage(IntIndex(i)) => if 0 <= i < |h| then RemoveAt(h, i) else h
    case ClearSession => []
    case _ => h
  }

  /** How many `saveState` writes applying `data` to the log `h` makes. */
  function SavesFor(h: seq<Entry>, data: Message): nat {
    match data
    case SyncHistory(Some(_)) => 1
    case NewMessage(Some(e)) => if AllSpace(e.text) then 0 else 1
    case DeleteMessage(IntIndex(i)) => if 0 <= i < |h| then 1 else 0
    case ClearSession => 1
    case _ => 0
  }

  /** A `PRESENCE` with an id: the payload that overwrites the roster entry. */
  predicate Announces(data: Message) {
    data.Presence? && data.announcement.Some? && data.announcement.value.id != []
  }

  /** The roster after a received `data`. */
  function RosterAfter(roster: map<PeerId, PresencePayload>, data: Message): map<PeerId, PresencePayload> {
    if Announces(data) then roster[data.announcement.value.id := data.announcement.value] else roster
  }

  /** The roster's property order after a received `data`. */
  function OrderAfter(order: seq<PeerId>, data: Message): seq<PeerId> {
    if Announces(data) && data.announcement.value.id !in order then order + [data.announcement.value.id]
    else order
  }

  /** Whether a host forwards `data` to its other guests once applied. */
  predicate Relayed(data: Message) {
    match data
    case NewMessage(payload) => payload.Some?
    case DeleteMessage(index) => !index.NotANumber?
    case ClearSession => true
    case Presence(_) => Announces(data)
    case _ => false
  }

  /** Whether `data` is a user prompt that runs this peer's own agents. */
  predicate MeshTrigger(data: Message) {
    data.NewMessage? && data.payload.Some? && data.payload.value.kind == UserKind
  }

  /** `SYNC_HISTORY` handling. */
  method OnSyncHistory(s: Session, history: Option<seq<Entry>>)
    modifies s`chatHistory, s`saves
    ensures s.chatHistory == HistoryAfter(old(s.chatHistory), SyncHistory(history), 0)
    ensures s.saves == old(s.saves) + SavesFor(old(s.chatHistory), SyncHistory(history))
  {
    if history.Some? {
      s.chatHistory := history.value;
      s.SaveState();
    }
  }

  /** `NEW_MESSAGE` handling: applied as coming from the network, the mesh
      trigger for a user prompt, then the relay. */
  method OnNewMessage(s: Session, data: Message, sender: ConnId, panel: Panel, now: int, open: set<ConnId>)
    requires data.NewMessage?
    modifies s`chatHistory, s`saves, s`outbox, s`tabOutbox
    ensures s.chatHistory == HistoryAfter(old(s.chatHistory), data, now)
    ensures s.saves == old(s.saves) + SavesFor(old(s.chatHistory), data)
    ensures s.outbox == old(s.outbox) + (if Relayed(data) then RelaySends(s.isHost, s.connections, open, sender, data) else [])
    ensures s.tabOutbox == old(s.tabOutbox)
                           + (if MeshTrigger(data) then PromptPlan(s.chatHistory, s.activeTabs, panel, data.payload.value.text)
                              else [])
  {
    if data.payload.None? {
      return;
    }
    var e := data.payload.value;
    assert HistoryAfter(s.chatHistory, data, now)
           == if AllSpace(e.text) then s.chatHistory else s.chatHistory + [NewEntry(e.sender, e.text, e.kind, now)];
    assert SavesFor(s.chatHistory, data) == if AllSpace(e.text) then 0 else 1;
    ghost var sent := s.outbox;
    AddMessage(s, e.sender, e.text, e.kind, true, now, open);
    assert s.outbox == sent;
    if e.kind == UserKind {
      DistributeToAgents(s, e.text, panel);
    }
    Relay(s, data, sender, open);
  }

  /** `DELETE_MESSAGE` handling: any number is passed on to `deleteMessage`
      (which finds no entry at a non-integral one) and relayed. */
  method OnDeleteMessage(s: Session, data: Message, sender: ConnId, open: set<ConnId>)
    requires data.DeleteMessage?
    modifies s`chatHistory, s`saves, s`outbox, s`confirms
    ensures s.chatHistory == HistoryAfter(old(s.chatHistory), data, 0)
    ensures s.saves == old(s.saves) + SavesFor(old(s.chatHistory), data)
    ensures s.confirms == old(s.confirms)
    ensures s.outbox == old(s.outbox) + (if Relayed(data) then RelaySends(s.isHost, s.connections, open, sender, data) else [])
  {
    match data.index
    case IntIndex(i) =>
      Chat.DeleteMessage(s, i, true, false, open);
      Relay(s, data, sender, open);
    case OtherNumber =>
      Relay(s, data, sender, open);
    case NotANumber =>
  }

  /** `CLEAR_SESSION` handling. */
  method OnClearSession(s: Session, sender: ConnId, open: set<ConnId>)
    modifies s`chatHistory, s`saves, s`outbox, s`confirms
    ensures s.chatHistory == [] && s.saves == old(s.saves) + 1 && s.confirms == old(s.confirms)
    ensures s.outbox == old(s.outbox) + RelaySends(s.isHost, s.connections, open, sender, Message.ClearSession)
  {
    Chat.ClearSession(s, true, false, open);
    Relay(s, Message.ClearSession, sender, open);
  }

  /** `PRESENCE` handling: a payload with an id replaces that entry wholesale
      and is relayed; anything else is ignored. */
  method OnPresence(s: Session, data: Message, sender: ConnId, open: set<ConnId>)
    requires data.Presence?
    requires s.RosterValid()
    modifies s`peerRoster, s`rosterOrder, s`outbox
    ensures s.RosterValid()
    ensures s.peerRoster == RosterAfter(old(s.peerRoster), data)
    ensures s.rosterOrder == OrderAfter(old(s.rosterOrder), data)
    ensures s.outbox == old(s.outbox) + (if Relayed(data) then RelaySends(s.isHost, s.connections, open, sender, data) else [])
  {
    if Announces(data) {
      var p := data.announcement.value;
      s.PutRoster(p.id, p);
      Relay(s, data, sender, open);
    }
  }

  /** `handleLanMessage(data, senderConn)`. */
  method HandleLanMessage(s: Session, data: Message, sender: ConnId, panel: Panel, now: int, open: set<ConnId>)
    requires s.RosterValid()
    modifies s`chatHistory, s`saves, s`outbox, s`tabOutbox, s`peerRoster, s`rosterOrder, s`confirms
    ensures s.RosterValid()
    ensures s.chatHistory == HistoryAfter(old(s.chatHistory), data, now)
    ensures s.saves == old(s.saves) + SavesFor(old(s.chatHistory), data)
    ensures s.confirms == old(s.confirms)
    ensures s.peerRoster == RosterAfter(old(s.peerRoster), data)
    ensures s.rosterOrder == OrderAfter(old(s.rosterOrder), data)
    ensures s.outbox == old(s.outbox) + (if Relayed(data) then RelaySends(s.isHost, s.connections, open, sender, data) else [])
    ensures s.tabOutbox == old(s.tabOutbox)
                           + (if MeshTrigger(data) then PromptPlan(s.chatHistory, s.activeTabs, panel, data.payload.value.text)
                              else [])
  {
    match data
    case SyncHistory(history) => OnSyncHistory(s, history);
    case NewMessage(_) => OnNewMessage(s, data, sender, panel, now, open);
    case DeleteMessage(_) => OnDeleteMessage(s, data, sender, open);
    case ClearSession => OnClearSession(s, sender, open);
    case Presence(_) => OnPresence(s, data, sender, open);
    case Unknown(_) =>
  }

  /** Presence is idempotent: the same announcement applied twice leaves
      roster and order as one application does, and no other entry moves. */
  lemma PresenceIdempotent(roster: map<PeerId, PresencePayload>, order: seq<PeerId>, data: Message)
    ensures RosterAfter(RosterAfter(roster, data), data) == RosterAfter(roster, data)
    ensures OrderAfter(OrderAfter(order, data), data) == OrderAfter(order, data)
    ensures forall id :: id in roster && !(Announces(data) && id == data.announcement.value.id) ==>
              id in RosterAfter(roster, data) && RosterAfter(roster, data)[id] == roster[id]
  {
  }

  /** Only the host relays, never a `SYNC_HISTORY`, never back to the
      sender, and always the identical message. */
  lemma RelayRule(isHost: bool, cs: seq<ConnId>, open: set<ConnId>, sender: ConnId, data: Message,
                  c: ConnId, m: Message)
    ensures (c, m) in (if Relayed(data) then RelaySends(isHost, cs, open, sender, data) else [])
            <==> Relayed(data) && isHost && c in cs && c in open && c != sender && m == data
    ensures data.SyncHistory? ==> !Relayed(data)
  {
    RelayNoEcho(isHost, cs, open, sender, data, c, m);
  }

  /** A message that is not understood, or a `PRESENCE` without an id,
      changes no state and is not relayed. */
  lemma IgnoredMessages(h: seq<Entry>, roster: map<PeerId, PresencePayload>, order: seq<PeerId>,
                        data: Message, now: int)
    requires data.Unknown? || (data.Presence? && !Announces(data))
    ensures HistoryAfter(h, data, now) == h && SavesFor(h, data) == 0
    ensures RosterAfter(roster, data) == roster && OrderAfter(order, data) == order
    ensures !Relayed(data) && !MeshTrigger(data)
  {
  }

  /** A change made to the log locally: an `addMessage`, a confirmed
      `deleteMessage`, or a confirmed `clearSession`. */
  datatype LocalEdit =
    | Add(sender: string, text: string, kind: string, time: int)
    | Delete(index: int)
    | Clear

  /** The sender's own log after the edit. */
  function LocalAfter(h: seq<Entry>, op: LocalEdit): seq<Entry> {
    match op
    case Add(sender, text, kind, time) => if AllSpace(text) then h else h + [NewEntry(sender, text, kind, time)]
    case Delete(i) => if 0 <= i < |h| then RemoveAt(h, i) else h
    case Clear => []
  }

  /** What the sender broadcasts for the edit while connected, if anything:
      the stored entry, the index, or the clear. */
  function Announcement(h: seq<Entry>, op: LocalEdit): Option<Message> {
    match op
    case Add(sender, text, kind, time) =>
      if AllSpace(text) then None else Some(NewMessage(Some(NewEntry(sender, text, kind, time))))
    case Delete(i) => if 0 <= i < |h| then Some(Message.DeleteMessage(IntIndex(i))) else None
    case Clear => Some(Message.ClearSession)
  }

  /** As written, a replica that holds the same log does not always end up
      with the sender's log: an `Answer:` prompt is stored by the sender as an
      entry with empty text, which the receiver's `addMessage` then drops as
      blank, so the two logs differ in length from then on (and a later
      `DELETE_MESSAGE` by index removes different entries on each side). */
  lemma ReplicaDropsAnsweredEntry(h: seq<Entry>, sender: string, kind: string, time: int, now: int)
    ensures var op := Add(sender, "Answer:", kind, time);
            && Announcement(h, op).Some?
            && |HistoryAfter(h, Announcement(h, op).value, now)| == |h|
            && |LocalAfter(h, op)| == |h| + 1
  {
    AnswerAloneStoresEmptyText();
  }

  /** `NEW_MESSAGE` applied as evidently intended: the received entry is
      appended as it was stored by its sender, with its text and time. */
  function HistoryAfterVerbatim(h: seq<Entry>, data: Message, now: int): seq<Entry> {
    match data
    case NewMessage(Some(e)) => h + [e]
    case _ => HistoryAfter(h, data, now)
  }

  /** With the corrected handling every broadcast edit leaves a replica that
      held the sender's log with exactly the sender's new log. */
  lemma ReplicasConverge(h: seq<Entry>, op: LocalEdit, now: int)
    requires Announcement(h, op).Some?
    ensures HistoryAfterVerbatim(h, Announcement(h, op).value, now) == LocalAfter(h, op)
  {
  }

  /** An edit that announces nothing leaves the sender's log as it was. */
  lemma SilentEditKeepsLog(h: seq<Entry>, op: LocalEdit)
    requires Announcement(h, op).None?
    ensures LocalAfter(h, op) == h
  {
  }

  /** The sender's log after it makes the edits `ops` in turn. */
  function SenderAfter(h: seq<Entry>, ops: seq<LocalEdit>): seq<Entry>
    decreases |ops|
  {
    if ops == [] then h else SenderAfter(LocalAfter(h, ops[0]), ops[1..])
  }

  /** A replica's log `hr` after it receives, with the corrected handling,
      the announcement of each of the sender's edits `ops`. Each announcement
      (in particular a delete's index) is computed on the sender's log `hs`
      as it stands when that edit is made. */
  function ReplicaAfter(hs: seq<Entry>, hr: seq<Entry>, ops: seq<LocalEdit>, now: int): seq<Entry>
    decreases |ops|
  {
    if ops == [] then hr
    else
      var a := Announcement(hs, ops[0]);
      var hr' := if a.Some? then HistoryAfterVerbatim(hr, a.value, now) else hr;
      ReplicaAfter(LocalAfter(hs, ops[0]), hr', ops[1..], now)
  }

  /** With the corrected handling a replica that starts from the sender's log
      stays equal to it through any sequence of edits, so every later delete
      by index removes the same entry on both sides. */
  lemma {:induction false} ReplicasConvergeAll(h: seq<Entry>, ops: seq<LocalEdit>, now: int)
    ensures ReplicaAfter(h, h, ops, now) == SenderAfter(h, ops)
    decreases |ops|
  {
    if ops != [] {
      var a := Announcement(h, ops[0]);
      if a.Some? {
        ReplicasConverge(h, ops[0], now);
      } else {
        SilentEditKeepsLog(h, ops[0]);
      }
      ReplicasConvergeAll(LocalAfter(h, ops[0]), ops[1..], now);
    }
  }

  /** As written, deletes and clears already converge; only added entries
      are stored again, normalised a second time and re-stamped. */
  lemma AsWrittenConvergesButForAdds(h: seq<Entry>, op: LocalEdit, now: int)
    requires Announcement(h, op).Some? && !op.Add?
    ensures HistoryAfter(h, Announcement(h, op).value, now) == LocalAfter(h, op)
  {
  }

  /** `NEW_MESSAGE` handling with the corrected append. */
  method OnNewMessageVerbatim(s: Session, data: Message, sender: ConnId, panel: Panel, now: int, open: set<ConnId>)
    requires data.NewMessage?
    modifies s`chatHistory, s`saves, s`outbox, s`tabOutbox
    ensures s.chatHistory == HistoryAfterVerbatim(old(s.chatHistory), data, now)
    ensures s.saves == old(s.saves) + (if data.payload.Some? then 1 else 0)
    ensures s.outbox == old(s.outbox) + (if Relayed(data) then RelaySends(s.isHost, s.connections, open, sender, data) else [])
    ensures s.tabOutbox == old(s.tabOutbox)
                           + (if MeshTrigger(data) then PromptPlan(s.chatHistory, s.activeTabs, panel, data.payload.value.text)
                              else [])
  {
    if data.payload.None? {
      return;
    }
    var e := data.payload.value;
    Record(s, e);
    if e.kind == UserKind {
      DistributeToAgents(s, e.text, panel);
    }
    Relay(s, data, sender, open);
  }
}
