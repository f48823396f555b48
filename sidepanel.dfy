/** The single-file side panel script: the places where it departs from the
    modular sources. Everything else it does the same way, with the same
    members as the modules above. */
module Sidepanel {
  import opened JsText
  import opened Wire
  import opened State
  import opened Chat
  import opened Lan
  import opened P2p
  import opened Ui

  /** `connections.filter(c => c !== conn)`. */
  function RemoveAll(cs: seq<ConnId>, c: ConnId): (r: seq<ConnId>)
    ensures c !in r
    decreases |cs|
  {
    if cs == [] then []
    else
      var last := cs[|cs| - 1];
      RemoveAll(cs[..|cs| - 1], c) + (if last == c then [] else [last])
  }

  /** Every copy of the closed connection goes and every other connection
      stays, as often as it was listed. */
  lemma {:induction false} RemoveAllCounts(cs: seq<ConnId>, c: ConnId)
    ensures multiset(RemoveAll(cs, c)) == multiset(cs)[c := 0]
    decreases |cs|
  {
    if cs != [] {
      var last := cs[|cs| - 1];
      assert cs == cs[..|cs| - 1] + [last];
      RemoveAllCounts(cs[..|cs| - 1], c);
    }
  }

  /** The filter works piece by piece, so the order of the connections that
      stay is kept. */
  lemma {:induction false} RemoveAllAppend(a: seq<ConnId>, b: seq<ConnId>, c: ConnId)
    ensures RemoveAll(a + b, c) == RemoveAll(a, c) + RemoveAll(b, c)
    decreases |b|
  {
    if b != [] {
      var b' := b[..|b| - 1];
      assert (a + b)[..|a + b| - 1] == a + b';
      assert (a + b)[|a + b| - 1] == b[|b| - 1];
      RemoveAllAppend(a, b', c);
    } else {
      assert a + b == a;
    }
  }

  /** A connection that is not there is not missed. */
  lemma {:induction false} RemoveAllAbsent(cs: seq<ConnId>, c: ConnId)
    requires c !in cs
    ensures RemoveAll(cs, c) == cs
    decreases |cs|
  {
    if cs != [] {
      RemoveAllAbsent(cs[..|cs| - 1], c);
      assert cs == cs[..|cs| - 1] + [cs[|cs| - 1]];
    }
  }

  /** Filtering out the one copy of `c` leaves the rest as it was. */
  lemma RemoveOnlyCopy(pre: seq<ConnId>, c: ConnId, post: seq<ConnId>)
    requires c !in pre && c !in post
    ensures RemoveAll(pre + [c] + post, c) == pre + post
  {
    var a := pre + [c];
    RemoveAllAppend(a, post, c);
    assert a[..|a| - 1] == pre;
    assert RemoveAll(a, c) == RemoveAll(pre, c);
    RemoveAllAbsent(pre, c);
    RemoveAllAbsent(post, c);
  }

  /** With at most one copy of `c`, nothing after that copy is `c`. */
  lemma NoSecondCopy(pre: seq<ConnId>, c: ConnId, post: seq<ConnId>)
    requires multiset(pre + [c] + post)[c] <= 1
    ensures c !in post
  {
    assert multiset(pre + [c] + post) == multiset(pre) + multiset{c} + multiset(post);
  }

  /** While each connection is listed at most once, as `setupConnection`
      lists it, the filter and the modular `indexOf`/`splice` close agree. */
  lemma FilterAgreesWithSplice(cs: seq<ConnId>, c: ConnId)
    requires multiset(cs)[c] <= 1
    ensures RemoveAll(cs, c) == RemoveFirst(cs, c)
  {
    var i := IndexOf(cs, c);
    if i == -1 {
      RemoveAllAbsent(cs, c);
    } else {
      var pre: seq<ConnId> := cs[..i];
      var post: seq<ConnId> := cs[i + 1..];
      assert cs == pre + [c] + post;
      NoSecondCopy(pre, c, post);
      RemoveOnlyCopy(pre, c, post);
    }
  }

  /** A connection listed twice is where the two differ: the filter drops
      both copies, the splice only the first. */
  lemma FilterDropsEveryCopy(c: ConnId)
    ensures RemoveAll([c, c], c) == [] && RemoveFirst([c, c], c) == [c]
  {
    assert [c, c][..1] == [c];
    assert [c, c][1..] == [c];
    assert RemoveAll([c], c) == [];
  }

  /** The `close` handler with the filter: a host drops every copy of the
      connection, a guest forgets its host and goes offline. */
  method OnConnectionClose(s: Session, c: ConnId)
    modifies s`connections, s`lanConnected, s`hostConn
    ensures s.isHost ==> s.connections == RemoveAll(old(s.connections), c)
                         && s.lanConnected == old(s.lanConnected) && s.hostConn == old(s.hostConn)
    ensures !s.isHost ==> s.connections == old(s.connections) && !s.lanConnected && s.hostConn == None
  {
    if s.isHost {
      s.connections := RemoveAll(s.connections, c);
    } else {
      s.lanConnected := false;
      s.hostConn := None;
    }
  }

  /** How a blur handler ends: nothing to save, the saved entry's new
      markup, or a `TypeError` raised before anything was changed. */
  datatype BlurOutcome = Kept | Rerendered(markup: string) | Threw

  /** The blur handler without the existence guard: an index past the end
      throws on `chatHistory[index].text`; otherwise it does what the guarded
      handler does. */
  method EditOnBlur(s: Session, index: nat, shown: string) returns (r: BlurOutcome)
    modifies s`chatHistory, s`saves
    ensures index >= |old(s.chatHistory)| ==>
              r == Threw && s.chatHistory == old(s.chatHistory) && s.saves == old(s.saves)
    ensures index < |old(s.chatHistory)| ==> s.chatHistory == AfterBlur(old(s.chatHistory), index, shown)
    ensures index < |old(s.chatHistory)| && old(s.chatHistory)[index].text != shown ==>
              s.saves == old(s.saves) + 1 && r == Rerendered(FormatTextWithMentions(shown))
    ensures index < |old(s.chatHistory)| && old(s.chatHistory)[index].text == shown ==>
              s.saves == old(s.saves) && r == Kept
  {
    if index >= |s.chatHistory| {
      return Threw;
    }
    r := Kept;
    if s.chatHistory[index].text != shown {
      s.chatHistory := s.chatHistory[index := s.chatHistory[index].(text := shown)];
      s.SaveState();
      r := Rerendered(FormatTextWithMentions(shown));
    }
  }

  /** What a listener receives as `clearSession`'s first argument: nothing
      (the default `false` applies), a boolean, or the click event object. */
  datatype ClearArg = Absent | Flag(b: bool) | ClickEvent

  /** The `fromNetwork` value as JavaScript sees it: an event object is
      truthy. */
  function FromNetwork(a: ClearArg): (r: bool)
    ensures a.Flag? ==> r == a.b
    ensures a.Absent? ==> !r
  {
    match a
    case Absent => false
    case Flag(b) => b
    case ClickEvent => true
  }

  /** The clear button as wired, with `clearSession` itself as the click
      listener: the event counts as `fromNetwork`, so the log is wiped with
      no confirmation and the other peers are never told. */
  method ClearButtonAsWritten(s: Session, open: set<ConnId>)
    modifies s`chatHistory, s`saves, s`outbox, s`confirms
    ensures s.chatHistory == [] && s.saves == old(s.saves) + 1
    ensures s.confirms == old(s.confirms) && s.outbox == old(s.outbox)
  {
    Chat.ClearSession(s, FromNetwork(ClickEvent), false, open);
  }

  /** The clear button as the modular entry point wires it, through
      `() => clearSession(false)`: the user is asked, and a confirmed clear
      reaches every peer while connected. */
  method ClearButton(s: Session, confirmed: bool, open: set<ConnId>)
    modifies s`chatHistory, s`saves, s`outbox, s`confirms
    ensures s.confirms == old(s.confirms) + 1
    ensures confirmed ==>
              && s.chatHistory == [] && s.saves == old(s.saves) + 1
              && s.outbox == old(s.outbox)
                             + if s.lanConnected
                               then Fanout(BroadcastTargets(s.isHost, s.connections, s.hostConn, open), Message.ClearSession)
                               else []
    ensures !confirmed ==>
              s.chatHistory == old(s.chatHistory) && s.saves == old(s.saves) && s.outbox == old(s.outbox)
  {
    Chat.ClearSession(s, FromNetwork(Absent), confirmed, open);
  }
}
