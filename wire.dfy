/** Values exchanged between peers, and between the side panel and the
    agent tabs. Connections and tabs are opaque identifiers. */
module Wire {

  datatype Option<+T> = None | Some(value: T)

  /** A PeerJS data connection, by identity (`conn !== other` compares these). */
  type ConnId = nat

  /** A peer's id on the signalling server; `""` stands for a missing id. */
  type PeerId = string

  /** A browser tab id. */
  type TabId = int

  /** One chat log entry `{ sender, text, type, timestamp }`. */
  datatype Entry = Entry(sender: string, text: string, kind: string, timestamp: int)

  /** The `kind` (the source's `type`) of an entry typed by a person. */
  const UserKind: string := "user"

  /** A presence announcement `{ id, name, agents, isHost }`. */
  datatype PresencePayload = PresencePayload(id: PeerId, name: string, agents: seq<string>, isHost: bool)

  /** What `typeof data.index` and the value itself can be: an integral
      number, some other number (a fraction, `NaN`, an infinity), or not a
      number at all. */
  datatype IndexField = IntIndex(i: int) | OtherNumber | NotANumber

  /** The tagged union carried by a data connection. A field that is missing,
      falsy or of the wrong shape is `None`. */
  datatype Message =
    | SyncHistory(history: Option<seq<Entry>>)
    | NewMessage(payload: Option<Entry>)
    | DeleteMessage(index: IndexField)
    | ClearSession
    | Presence(announcement: Option<PresencePayload>)
    | Unknown(tag: string)

  /** A request `chrome.tabs.sendMessage` delivers to an agent tab's driver. */
  datatype TabRequest =
    | Ping
    | DistributePrompt(prompt: string)
    | HarvestLatest
    | OtherAction(action: string)
}
