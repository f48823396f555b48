/** Sending on data connections: `lanBroadcast` and the host's relay loop.
    A connection's `open` flag belongs to the transport; every operation here
    takes the set of connections whose flag is currently true. */
module Lan {
  import opened Wire
  import opened State

  /** The connections of `cs`, in order, that are open and are not `except`
      (the `conn !== senderConn && conn.open` test of the relay loop). */
  function OpenExcept(cs: seq<ConnId>, open: set<ConnId>, except: Option<ConnId>): (r: seq<ConnId>)
    ensures |r| <= |cs|
    decreases |cs|
  {
    if cs == [] then []
    else
      var c := cs[|cs| - 1];
      OpenExcept(cs[..|cs| - 1], open, except) + (if c in open && except != Some(c) then [c] else [])
  }

  /** One send of `m` on each connection of `targets`, in order. */
  function Fanout(targets: seq<ConnId>, m: Message): (r: seq<(ConnId, Message)>)
    ensures |r| == |targets|
    decreases |targets|
  {
    if targets == [] then [] else Fanout(targets[..|targets| - 1], m) + [(targets[|targets| - 1], m)]
  }

  /** The relay test keeps exactly the open connections other than `except`. */
  lemma {:induction false} OpenExceptMembers(cs: seq<ConnId>, open: set<ConnId>, except: Option<ConnId>)
    ensures forall c :: c in OpenExcept(cs, open, except) <==> c in cs && c in open && except != Some(c)
    decreases |cs|
  {
    if cs != [] {
      OpenExceptMembers(cs[..|cs| - 1], open, except);
      assert cs == cs[..|cs| - 1] + [cs[|cs| - 1]];
    }
  }

  /** Send `i` of a fan-out goes to the `i`-th target and carries `m`. */
  lemma {:induction false} FanoutAt(targets: seq<ConnId>, m: Message)
    ensures forall i :: 0 <= i < |targets| ==> Fanout(targets, m)[i] == (targets[i], m)
    decreases |targets|
  {
    if targets != [] {
      FanoutAt(targets[..|targets| - 1], m);
    }
  }

  /** Who `lanBroadcast` sends to: a host every open guest connection; a
      guest its host connection when that is set and open; nobody else. */
  function BroadcastTargets(isHost: bool, cs: seq<ConnId>, hostConn: Option<ConnId>,
                            open: set<ConnId>): seq<ConnId>
  {
    if isHost then OpenExcept(cs, open, None)
    else if hostConn.Some? && hostConn.value in open then [hostConn.value]
    else []
  }

  /** What the relay loop of the message handler sends: the identical message
      to every open connection except the one it arrived on, and only from a host. */
  function RelaySends(isHost: bool, cs: seq<ConnId>, open: set<ConnId>, sender: ConnId,
                      m: Message): seq<(ConnId, Message)>
  {
    if isHost then Fanout(OpenExcept(cs, open, Some(sender)), m) else []
  }

  /** A broadcast reaches only open connections: on a host exactly the open
      members of the connection set, on a guest at most the host connection. */
  lemma BroadcastTargetsShape(isHost: bool, cs: seq<ConnId>, hostConn: Option<ConnId>,
                              open: set<ConnId>, c: ConnId)
    ensures c in BroadcastTargets(isHost, cs, hostConn, open) ==> c in open
    ensures isHost ==> (c in BroadcastTargets(isHost, cs, hostConn, open) <==> c in cs && c in open)
    ensures !isHost ==> (c in BroadcastTargets(isHost, cs, hostConn, open) <==> hostConn == Some(c) && c in open)
    ensures !isHost ==> |BroadcastTargets(isHost, cs, hostConn, open)| <= 1
  {
    OpenExceptMembers(cs, open, None);
  }

  /** The relay never echoes to the sender, carries the message unchanged,
      reaches every other open connection of the host, and a guest relays nothing. */
  lemma RelayNoEcho(isHost: bool, cs: seq<ConnId>, open: set<ConnId>, sender: ConnId,
                    m: Message, c: ConnId, m': Message)
    ensures (c, m') in RelaySends(isHost, cs, open, sender, m)
            <==> isHost && c in cs && c in open && c != sender && m' == m
    ensures (sender, m') !in RelaySends(isHost, cs, open, sender, m)
    ensures !isHost ==> RelaySends(isHost, cs, open, sender, m) == []
  {
    var ts := OpenExcept(cs, open, Some(sender));
    OpenExceptMembers(cs, open, Some(sender));
    FanoutAt(ts, m);
    if isHost {
      var r := Fanout(ts, m);
      if (c, m') in r {
        var i :| 0 <= i < |r| && r[i] == (c, m');
        assert ts[i] == c;
      }
      if isHost && c in cs && c in open && c != sender && m' == m {
        var i :| 0 <= i < |ts| && ts[i] == c;
        assert r[i] == (c, m');
      }
    }
  }

  /** `Fanout` of a sequence extended by one connection. */
  lemma FanoutSnoc(ts: seq<ConnId>, c: ConnId, m: Message)
    ensures Fanout(ts + [c], m) == Fanout(ts, m) + [(c, m)]
  {
    assert (ts + [c])[..|ts|] == ts;
  }

  /** One more step of the send loop: `OpenExcept` over one more connection
      of `cs`, and its fan-out. */
  lemma SendStep(cs: seq<ConnId>, i: nat, open: set<ConnId>, except: Option<ConnId>,
                 start: seq<(ConnId, Message)>, m: Message)
    requires i < |cs|
    ensures var c := cs[i];
            var before := OpenExcept(cs[..i], open, except);
            && OpenExcept(cs[..i + 1], open, except)
               == before + (if c in open && except != Some(c) then [c] else [])
            && start + Fanout(before + [c], m) == start + Fanout(before, m) + [(c, m)]
  {
    assert cs[..i + 1][..i] == cs[..i];
    var before := OpenExcept(cs[..i], open, except);
    FanoutSnoc(before, cs[i], m);
  }

  /** `conn.send(data)`. */
  method Send(s: Session, c: ConnId, m: Message)
    modifies s`outbox
    ensures s.outbox == old(s.outbox) + [(c, m)]
  {
    s.outbox := s.outbox + [(c, m)];
  }

  /** Send `m` on every connection of `s.connections` that is open and not
      `except`, in order. */
  method SendToOpen(s: Session, m: Message, open: set<ConnId>, except: Option<ConnId>)
    modifies s`outbox
    ensures s.outbox == old(s.outbox) + Fanout(OpenExcept(s.connections, open, except), m)
  {
    var cs := s.connections;
    ghost var start := s.outbox;
    ghost var targets: seq<ConnId> := [];
    var i := 0;
    while i < |cs|
      invariant 0 <= i <= |cs|
      invariant targets == OpenExcept(cs[..i], open, except)
      invariant s.outbox == start + Fanout(targets, m)
    {
      var c := cs[i];
      SendStep(cs, i, open, except, start, m);
      if c in open && except != Some(c) {
        s.outbox := s.outbox + [(c, m)];
        targets := targets + [c];
      }
      i := i + 1;
    }
    assert cs[..|cs|] == cs;
  }

  /** `lanBroadcast(data)`. */
  method LanBroadcast(s: Session, data: Message, open: set<ConnId>)
    modifies s`outbox
    ensures s.outbox == old(s.outbox)
                        + Fanout(BroadcastTargets(s.isHost, s.connections, s.hostConn, open), data)
  {
    if s.isHost {
      SendToOpen(s, data, open, None);
    } else if s.hostConn.Some? && s.hostConn.value in open {
      Send(s, s.hostConn.value, data);
    }
  }

  /** The handler's relay step: a host forwards `data` to every other open
      connection; a guest forwards nothing. */
  method Relay(s: Session, data: Message, sender: ConnId, open: set<ConnId>)
    modifies s`outbox
    ensures s.outbox == old(s.outbox) + RelaySends(s.isHost, s.connections, open, sender, data)
  {
    if s.isHost {
      SendToOpen(s, data, open, Some(sender));
    }
  }
}
