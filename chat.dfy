/** The chat log engine: appending, deleting by index and clearing the
    ordered log, and deciding whether each change is broadcast. */
module Chat {
  import opened JsText
  import opened Wire
  import opened State
  import opened Lan

  /** Length of the text `ChatGPT\s*said:` matches at the start of `t`
      (case-insensitively), or 0 when it does not match there. The greedy
      `\s*` is the only candidate run: `said:` starts with a non-space. */
  function ChatGptSaidLength(t: string): (n: nat)
    ensures n <= |t|
    ensures n > 0 ==> n >= 12 && StartsWithCI(t, "ChatGPT") && StartsWithCI(t[n - 5..], "said:")
                      && AllSpace(t[7..n - 5])
    ensures n > 0 <==> StartsWithCI(t, "ChatGPT") && StartsWithCI(TrimStart(t[7..]), "said:")
    ensures StartsWithCI(t, "ChatGPT") && StartsWithCI(TrimStart(t[7..]), "said:") ==>
              n == |t| - |TrimStart(t[7..])| + 5
  {
    if StartsWithCI(t, "ChatGPT") then
      var rest := TrimStart(t[7..]);
      TrimStartSpec(t[7..]);
      if StartsWithCI(rest, "said:") then
        assert t[7..][..|t| - 7 - |rest|] == t[7..|t| - |rest|];
        assert t[|t| - |rest|..] == rest;
        |t| - |rest| + 5
      else 0
    else 0
  }

  /** Length of the prefix `/^(Thinking\.\.\.|ChatGPT\s*said:|Here is the response|Answer:)/i`
      matches: the first alternative that matches at the start wins, and 0
      means nothing matched. */
  function BoilerplateLength(t: string): (n: nat)
    ensures n <= |t|
  {
    if StartsWithCI(t, "Thinking...") then 11
    else if ChatGptSaidLength(t) > 0 then ChatGptSaidLength(t)
    else if StartsWithCI(t, "Here is the response") then 20
    else if StartsWithCI(t, "Answer:") then 7
    else 0
  }

  /** No alternative of the boilerplate pattern matches at the start of `t`. */
  predicate NoBoilerplate(t: string) {
    && !StartsWithCI(t, "Thinking...")
    && ChatGptSaidLength(t) == 0
    && !StartsWithCI(t, "Here is the response")
    && !StartsWithCI(t, "Answer:")
  }

  /** One boilerplate prefix removed (the regular expression has no `g`
      flag), then the rest trimmed. */
  function StripBoilerplate(t: string): string {
    Trim(t[BoilerplateLength(t)..])
  }

  /** The text `addMessage` stores: trimmed, one boilerplate prefix stripped
      from the trimmed text, trimmed again. */
  function NormalizeText(text: string): string {
    StripBoilerplate(Trim(text))
  }

  /** The entry `addMessage(sender, text, type)` creates at time `now`. */
  function NewEntry(sender: string, text: string, kind: string, now: int): Entry {
    Entry(sender, NormalizeText(text), kind, now)
  }

  /** Where the text left after stripping starts inside `t`. */
  lemma StripAt(t: string) returns (k: nat)
    ensures OccursAt(t, StripBoilerplate(t), k)
  {
    k := DropTrimAt(t, BoilerplateLength(t));
  }

  /** The stored text is a contiguous piece of the input. */
  lemma NormalizeShape(text: string)
    ensures exists i: nat :: OccursAt(text, NormalizeText(text), i)
  {
    var i := TrimAt(text);
    var k := StripAt(Trim(text));
    OccursAtTrans(text, Trim(text), NormalizeText(text), i, k);
  }

  /** When no prefix matches, the stored text is exactly the trimmed input. */
  lemma NoBoilerplateKeepsTrim(text: string)
    requires NoBoilerplate(Trim(text))
    ensures NormalizeText(text) == Trim(text)
  {
    TrimIdempotent(text);
  }

  /** Once the input is not all whitespace an entry is stored even when the
      stored text ends up empty: the emptiness check runs before stripping. */
  lemma AnswerAloneStoresEmptyText()
    ensures !AllSpace("Answer:") && NormalizeText("Answer:") == ""
  {
    assert !IsSpace("Answer:"[0]);
    TrimStartNoop("Answer:");
    TrimEndNoop("Answer:");
  }

  /** The boilerplate pattern, checked on a text starting with `answer:`
      in any case: only the last alternative matches, and it covers 7
      characters. */
  lemma AnswerPrefixLength(t: string)
    requires StartsWithCI(t, "Answer:")
    ensures BoilerplateLength(t) == 7
  {
    assert FoldAscii(t[0]) == 'a';
  }

  /** Matching is case-insensitive and only one prefix goes: the second
      `answer:` stays. */
  lemma OnePrefixOnly()
    ensures NormalizeText("answer:answer:") == "answer:"
  {
    var t := "answer:answer:";
    TrimStartNoop(t);
    TrimEndNoop(t);
    AnswerPrefixLength(t);
    assert t[7..] == "answer:";
    TrimStartNoop("answer:");
    TrimEndNoop("answer:");
  }

  /** `chatHistory.splice(i, 1)` for an index that holds an entry. */
  function RemoveAt(h: seq<Entry>, i: nat): (r: seq<Entry>)
    requires i < |h|
    ensures |r| == |h| - 1
    ensures forall j :: 0 <= j < i ==> r[j] == h[j]
    ensures forall j :: i <= j < |r| ==> r[j] == h[j + 1]
  {
    h[..i] + h[i + 1..]
  }

  /** Index reuse: deleting at `i` twice removes the entry that was at `i`
      and then the one that had shifted down into its place. */
  lemma DeleteTwiceShifts(h: seq<Entry>, i: nat)
    requires i + 1 < |h|
    ensures RemoveAt(RemoveAt(h, i), i) == h[..i] + h[i + 2..]
  {
    var r := RemoveAt(RemoveAt(h, i), i);
    assert |r| == |h[..i] + h[i + 2..]|;
    forall j | 0 <= j < |r| ensures r[j] == (h[..i] + h[i + 2..])[j] {
    }
  }

  /** `chatHistory.push(e); saveState();` */
  method Record(s: Session, e: Entry)
    modifies s`chatHistory, s`saves
    ensures s.chatHistory == old(s.chatHistory) + [e]
    ensures s.saves == old(s.saves) + 1
  {
    s.chatHistory := s.chatHistory + [e];
    s.SaveState();
  }

  /** `addMessage(sender, text, type, fromNetwork)`: whitespace-only text is
      dropped; anything else appends one entry at the end, is saved, and is
      broadcast as `NEW_MESSAGE` exactly when the call is local and the peer
      is connected. */
  method AddMessage(s: Session, sender: string, text: string, kind: string, fromNetwork: bool,
                    now: int, open: set<ConnId>)
    modifies s`chatHistory, s`saves, s`outbox
    ensures AllSpace(text) ==> s.chatHistory == old(s.chatHistory) && s.saves == old(s.saves)
                               && s.outbox == old(s.outbox)
    ensures !AllSpace(text) ==>
              && s.chatHistory == old(s.chatHistory) + [NewEntry(sender, text, kind, now)]
              && s.saves == old(s.saves) + 1
              && s.outbox == old(s.outbox)
                             + if !fromNetwork && s.lanConnected
                               then Fanout(BroadcastTargets(s.isHost, s.connections, s.hostConn, open),
                                           NewMessage(Some(NewEntry(sender, text, kind, now))))
                               else []
  {
    TrimEmptyIffAllSpace(text);
    if Trim(text) == [] {
      return;
    }
    var msg := NewEntry(sender, text, kind, now);
    Record(s, msg);
    if !fromNetwork && s.lanConnected {
      LanBroadcast(s, NewMessage(Some(msg)), open);
    }
  }

  /** `deleteMessage(index, fromNetwork)`: a local delete asks for
      confirmation (`confirmed` is the answer) and a network one never does;
      an index that holds no entry changes nothing; otherwise the entry goes,
      later entries shift down, and a local delete is broadcast with the same
      index when the peer is connected. */
  method DeleteMessage(s: Session, index: int, fromNetwork: bool, confirmed: bool, open: set<ConnId>)
    modifies s`chatHistory, s`saves, s`outbox, s`confirms
    ensures s.confirms == old(s.confirms) + if fromNetwork then 0 else 1
    ensures (fromNetwork || confirmed) && 0 <= index < |old(s.chatHistory)| ==>
              && s.chatHistory == RemoveAt(old(s.chatHistory), index)
              && s.saves == old(s.saves) + 1
              && s.outbox == old(s.outbox)
                             + if !fromNetwork && s.lanConnected
                               then Fanout(BroadcastTargets(s.isHost, s.connections, s.hostConn, open),
                                           Message.DeleteMessage(IntIndex(index)))
                               else []
    ensures !((fromNetwork || confirmed) && 0 <= index < |old(s.chatHistory)|) ==>
              s.chatHistory == old(s.chatHistory) && s.saves == old(s.saves) && s.outbox == old(s.outbox)
  {
    if !fromNetwork {
      s.confirms := s.confirms + 1;
      if !confirmed {
        return;
      }
    }
    if 0 <= index < |s.chatHistory| {
      s.chatHistory := s.chatHistory[..index] + s.chatHistory[index + 1..];
      s.SaveState();
      if !fromNetwork && s.lanConnected {
        LanBroadcast(s, Message.DeleteMessage(IntIndex(index)), open);
      }
    }
  }

  /** `clearSession(fromNetwork)`: same confirmation rule as a delete; the
      log becomes empty, and a local clear is broadcast as `CLEAR_SESSION`
      when the peer is connected. */
  method ClearSession(s: Session, fromNetwork: bool, confirmed: bool, open: set<ConnId>)
    modifies s`chatHistory, s`saves, s`outbox, s`confirms
    ensures s.confirms == old(s.confirms) + if fromNetwork then 0 else 1
    ensures fromNetwork || confirmed ==>
              && s.chatHistory == []
              && s.saves == old(s.saves) + 1
              && s.outbox == old(s.outbox)
                             + if !fromNetwork && s.lanConnected
                               then Fanout(BroadcastTargets(s.isHost, s.connections, s.hostConn, open),
                                           Message.ClearSession)
                               else []
    ensures !(fromNetwork || confirmed) ==>
              s.chatHistory == old(s.chatHistory) && s.saves == old(s.saves) && s.outbox == old(s.outbox)
  {
    if !fromNetwork {
      s.confirms := s.confirms + 1;
      if !confirmed {
        return;
      }
    }
    s.chatHistory := [];
    s.SaveState();
    if !fromNetwork && s.lanConnected {
      LanBroadcast(s, Message.ClearSession, open);
    }
  }
}
