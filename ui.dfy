/** The rules of the chat view that carry behaviour: mention highlighting
    over HTML-escaped text, saving an edited entry when it loses focus,
    when the roster panel is hidden, and the style key of an agent badge. */
module Ui {
  import opened JsText
  import opened Wire
  import opened State
  import opened Presence
  import opened Agents

  /** `s.replace(/c/g, rep)` for a single character `c`. */
  function ReplaceChar(s: string, c: char, rep: string): string
    decreases |s|
  {
    if s == [] then [] else (if s[0] == c then rep else [s[0]]) + ReplaceChar(s[1..], c, rep)
  }

  /** The three chained replacements, `&` first, then `<`, then `>`. */
  function EscapeHtml(s: string): string {
    ReplaceChar(ReplaceChar(ReplaceChar(s, '&', "&amp;"), '<', "&lt;"), '>', "&gt;")
  }

  /** The entity a single character is escaped to. */
  function EscapeChar(c: char): string {
    if c == '&' then "&amp;" else if c == '<' then "&lt;" else if c == '>' then "&gt;" else [c]
  }

  /** Escaping every character on its own, left to right. */
  function EscapeEach(s: string): string
    decreases |s|
  {
    if s == [] then [] else EscapeChar(s[0]) + EscapeEach(s[1..])
  }

  lemma {:induction false} ReplaceCharAppend(a: string, b: string, c: char, rep: string)
    ensures ReplaceChar(a + b, c, rep) == ReplaceChar(a, c, rep) + ReplaceChar(b, c, rep)
    decreases |a|
  {
    if a == [] {
      assert a + b == b;
    } else {
      assert (a + b)[1..] == a[1..] + b;
      ReplaceCharAppend(a[1..], b, c, rep);
    }
  }

  lemma {:induction false} ReplaceCharAbsent(s: string, c: char, rep: string)
    requires c !in s
    ensures ReplaceChar(s, c, rep) == s
    decreases |s|
  {
    if s != [] {
      assert c !in s[1..];
      ReplaceCharAbsent(s[1..], c, rep);
    }
  }

  lemma ReplaceCharSingle(x: char, c: char, rep: string)
    ensures ReplaceChar([x], c, rep) == if x == c then rep else [x]
  {
    assert [x][1..] == [];
  }

  /** The three escapes of one character by the chain give that character's
      entity: the `&` of `&lt;` and `&gt;` is introduced after the `&` pass. */
  lemma EscapeChainChar(x: char)
    ensures ReplaceChar(ReplaceChar(ReplaceChar([x], '&', "&amp;"), '<', "&lt;"), '>', "&gt;") == EscapeChar(x)
  {
    ReplaceCharSingle(x, '&', "&amp;");
    if x == '&' {
      ReplaceCharAbsent("&amp;", '<', "&lt;");
      ReplaceCharAbsent("&amp;", '>', "&gt;");
    } else {
      ReplaceCharSingle(x, '<', "&lt;");
      if x == '<' {
        ReplaceCharAbsent("&lt;", '>', "&gt;");
      } else {
        ReplaceCharSingle(x, '>', "&gt;");
      }
    }
  }

  /** Replacing `&` first makes the chain the same as escaping each
      character once. */
  lemma {:induction false} EscapeHtmlEach(s: string)
    ensures EscapeHtml(s) == EscapeEach(s)
    decreases |s|
  {
    if s != [] {
      var x, rest := s[0], s[1..];
      assert s == [x] + rest;
      EscapeHtmlEach(rest);
      ReplaceCharAppend([x], rest, '&', "&amp;");
      var a1, r1 := ReplaceChar([x], '&', "&amp;"), ReplaceChar(rest, '&', "&amp;");
      ReplaceCharAppend(a1, r1, '<', "&lt;");
      var a2, r2 := ReplaceChar(a1, '<', "&lt;"), ReplaceChar(r1, '<', "&lt;");
      ReplaceCharAppend(a2, r2, '>', "&gt;");
      EscapeChainChar(x);
    }
  }

  /** Escaped text holds no `<` and no `>`. */
  lemma {:induction false} EscapeEachNoAngles(s: string)
    ensures '<' !in EscapeEach(s) && '>' !in EscapeEach(s)
    decreases |s|
  {
    if s != [] {
      EscapeEachNoAngles(s[1..]);
    }
  }

  /** The browser's decoding of the three entities, left to right. */
  function Unescape(s: string): string
    decreases |s|
  {
    if s == [] then []
    else if "&amp;" <= s then "&" + Unescape(s[5..])
    else if "&lt;" <= s then "<" + Unescape(s[4..])
    else if "&gt;" <= s then ">" + Unescape(s[4..])
    else [s[0]] + Unescape(s[1..])
  }

  /** Decoding the escaped text gives the original back. */
  lemma {:induction false} UnescapeEscape(s: string)
    ensures Unescape(EscapeEach(s)) == s
    decreases |s|
  {
    if s != [] {
      var x, rest := s[0], EscapeEach(s[1..]);
      var e := EscapeEach(s);
      assert e == EscapeChar(x) + rest;
      UnescapeEscape(s[1..]);
      if x == '&' {
        assert "&amp;" <= e && e[5..] == rest;
      } else if x == '<' {
        assert e[0] == '&' && e[1] == 'l';
        assert "&lt;" <= e && e[4..] == rest;
      } else if x == '>' {
        assert e[0] == '&' && e[1] == 'g';
        assert "&gt;" <= e && e[4..] == rest;
      } else {
        assert e[0] == x && e[1..] == rest;
      }
      assert s == [x] + s[1..];
    }
  }

  const MentionOpen: string := "<span class=\"mention-tag\">"
  const MentionClose: string := "</span>"

  /** Length of the longest prefix of `s` in the class `[\w一-龥]`. */
  function WordRun(s: string): (n: nat)
    ensures n <= |s|
    ensures forall i :: 0 <= i < n ==> IsWordChar(s[i])
    ensures n < |s| ==> !IsWordChar(s[n])
    decreases |s|
  {
    if s != [] && IsWordChar(s[0]) then 1 + WordRun(s[1..]) else 0
  }

  /** `s.replace(/(@[\w一-龥]+)/g, ...)`: scanning left to right,
      each `@` followed by at least one word character is wrapped in a
      mention span together with the whole run of word characters. */
  function WrapMentions(s: string): string
    decreases |s|
  {
    if s == [] then []
    else if s[0] == '@' && WordRun(s[1..]) > 0 then
      var n := 1 + WordRun(s[1..]);
      MentionOpen + s[..n] + MentionClose + WrapMentions(s[n..])
    else [s[0]] + WrapMentions(s[1..])
  }

  /** `formatTextWithMentions(text)`; `""` is the only falsy string. */
  function FormatTextWithMentions(text: string): string {
    if text == [] then [] else WrapMentions(EscapeHtml(text))
  }

  /** The text content of markup whose only tags are mention spans. */
  function StripMentionTags(s: string): string
    decreases |s|
  {
    if s == [] then []
    else if MentionOpen <= s then StripMentionTags(s[|MentionOpen|..])
    else if MentionClose <= s then StripMentionTags(s[|MentionClose|..])
    else [s[0]] + StripMentionTags(s[1..])
  }

  /** What `innerText` reads from the rendered markup (line breaks aside). */
  function InnerText(html: string): string {
    Unescape(StripMentionTags(html))
  }

  lemma {:induction false} WrapMentionsAbsent(s: string)
    requires '@' !in s
    ensures WrapMentions(s) == s
    decreases |s|
  {
    if s != [] {
      assert '@' !in s[1..];
      WrapMentionsAbsent(s[1..]);
    }
  }

  /** Text without `@`, `&`, `<` and `>` is shown exactly as it is. */
  lemma FormatPlainUnchanged(text: string)
    requires '@' !in text && '&' !in text && '<' !in text && '>' !in text
    ensures FormatTextWithMentions(text) == text
  {
    ReplaceCharAbsent(text, '&', "&amp;");
    ReplaceCharAbsent(text, '<', "&lt;");
    ReplaceCharAbsent(text, '>', "&gt;");
    WrapMentionsAbsent(text);
  }

  /** Formatting never produces an angle bracket of its own outside the
      mention spans: the escaped text's only `<` and `>` are the tags'. */
  lemma EscapedTextHasNoTags(text: string)
    ensures '<' !in EscapeHtml(text) && '>' !in EscapeHtml(text)
  {
    EscapeHtmlEach(text);
    EscapeEachNoAngles(text);
  }

  /** Text without tags passes through tag stripping unchanged. */
  lemma {:induction false} StripPlainPrefix(x: string, y: string)
    requires '<' !in x
    ensures StripMentionTags(x + y) == x + StripMentionTags(y)
    decreases |x|
  {
    if x == [] {
      assert x + y == y;
    } else {
      var s := x + y;
      assert s[0] == x[0] != '<';
      assert MentionOpen[0] == '<' && MentionClose[0] == '<';
      assert s[1..] == x[1..] + y;
      assert '<' !in x[1..];
      StripPlainPrefix(x[1..], y);
    }
  }

  lemma StripOpen(y: string)
    ensures StripMentionTags(MentionOpen + y) == StripMentionTags(y)
  {
    assert (MentionOpen + y)[|MentionOpen|..] == y;
  }

  lemma StripClose(y: string)
    ensures StripMentionTags(MentionClose + y) == StripMentionTags(y)
  {
    var s := MentionClose + y;
    assert s[1] == '/' != MentionOpen[1];
    assert s[|MentionClose|..] == y;
  }

  /** Stripping one mention span leaves the mention's own text. */
  lemma StripSpan(w: string, rest: string)
    requires '<' !in w
    ensures StripMentionTags(MentionOpen + w + MentionClose + rest) == w + StripMentionTags(rest)
  {
    assert MentionOpen + w + MentionClose + rest == MentionOpen + (w + (MentionClose + rest));
    StripOpen(w + (MentionClose + rest));
    StripPlainPrefix(w, MentionClose + rest);
    StripClose(rest);
  }

  /** Stripping the mention spans off wrapped tag-free text gives the text back. */
  lemma {:induction false} StripWrap(s: string)
    requires '<' !in s
    ensures StripMentionTags(WrapMentions(s)) == s
    decreases |s|
  {
    if s != [] {
      if s[0] == '@' && WordRun(s[1..]) > 0 {
        var n := 1 + WordRun(s[1..]);
        assert '<' !in s[n..] && '<' !in s[..n];
        StripWrap(s[n..]);
        StripSpan(s[..n], WrapMentions(s[n..]));
        assert s == s[..n] + s[n..];
      } else {
        assert '<' !in s[1..];
        StripWrap(s[1..]);
        StripPlainPrefix([s[0]], WrapMentions(s[1..]));
        assert s == [s[0]] + s[1..];
      }
    }
  }

  /** What the rendered entry reads back as is exactly the stored text. */
  lemma FormatRoundTrip(text: string)
    ensures InnerText(FormatTextWithMentions(text)) == text
  {
    if text != [] {
      EscapeHtmlEach(text);
      EscapeEachNoAngles(text);
      StripWrap(EscapeEach(text));
      UnescapeEscape(text);
    }
  }

  /** The log after the entry rendered at `index` loses focus reading
      `shown`: only an existing entry whose text differs is touched. */
  function AfterBlur(h: seq<Entry>, index: nat, shown: string): seq<Entry> {
    if index < |h| && h[index].text != shown then h[index := h[index].(text := shown)] else h
  }

  /** An edit replaces that one entry's text; its sender, kind and time and
      every other entry stay as they were. */
  lemma AfterBlurShape(h: seq<Entry>, index: nat, shown: string)
    ensures |AfterBlur(h, index, shown)| == |h|
    ensures forall j :: 0 <= j < |h| && j != index ==> AfterBlur(h, index, shown)[j] == h[j]
    ensures index < |h| ==>
              var e := AfterBlur(h, index, shown)[index];
              e.text == shown && e.sender == h[index].sender && e.kind == h[index].kind
              && e.timestamp == h[index].timestamp
  {
  }

  /** Leaving an entry without editing it changes nothing. */
  lemma BlurWithoutEditKeepsLog(h: seq<Entry>, index: nat)
    requires index < |h|
    ensures AfterBlur(h, index, InnerText(FormatTextWithMentions(h[index].text))) == h
  {
    FormatRoundTrip(h[index].text);
  }

  /** The blur handler of a rendered entry: the text is replaced and saved,
      and the content re-rendered, only for an existing entry whose text
      differs; the new markup is returned, or `None` when nothing happened. */
  method EditOnBlur(s: Session, index: nat, shown: string) returns (rerendered: Option<string>)
    modifies s`chatHistory, s`saves
    ensures s.chatHistory == AfterBlur(old(s.chatHistory), index, shown)
    ensures index < |old(s.chatHistory)| && old(s.chatHistory)[index].text != shown ==>
              s.saves == old(s.saves) + 1 && rerendered == Some(FormatTextWithMentions(shown))
    ensures !(index < |old(s.chatHistory)| && old(s.chatHistory)[index].text != shown) ==>
              s.saves == old(s.saves) && rerendered == None
  {
    rerendered := None;
    if index < |s.chatHistory| && s.chatHistory[index].text != shown {
      s.chatHistory := s.chatHistory[index := s.chatHistory[index].(text := shown)];
      s.SaveState();
      rerendered := Some(FormatTextWithMentions(shown));
    }
  }

  /** `renderRoster` hides the panel exactly when the peer is not connected
      and the roster has no key. */
  predicate RosterHidden(lanConnected: bool, roster: map<PeerId, PresencePayload>) {
    !lanConnected && roster.Keys == {}
  }

  /** With a consistent property order, the panel is hidden exactly when
      not connected and the order lists nobody; once anyone is stored it
      shows. */
  lemma RosterHiddenSpec(lanConnected: bool, roster: map<PeerId, PresencePayload>, order: seq<PeerId>,
                         id: PeerId, p: PresencePayload)
    requires forall x :: x in roster <==> x in order
    ensures RosterHidden(lanConnected, roster) <==> !lanConnected && order == []
    ensures !RosterHidden(lanConnected, roster[id := p])
  {
    if order != [] {
      assert order[0] in roster.Keys;
    }
    assert id in roster[id := p].Keys;
  }

  /** The badge style of an agent name, from its lower-cased form: the
      first of `gemini`, `claude`, `studio` it contains, else `gpt`. */
  function StyleKey(agentName: string): string {
    var lower := LowerAscii(agentName);
    if Contains(lower, "gemini") then "gemini"
    else if Contains(lower, "claude") then "claude"
    else if Contains(lower, "studio") then "aistudio"
    else "gpt"
  }

  /** A text in which `sub`'s first two characters occur together at no
      position where `sub` could start does not contain `sub`. */
  lemma NotContains(s: string, sub: string)
    requires |sub| >= 2
    requires forall i :: 0 <= i <= |s| - |sub| ==> s[i] != sub[0] || s[i + 1] != sub[1]
    ensures !Contains(s, sub)
  {
    ContainsIffOccurs(s, sub);
    forall i: nat ensures !OccursAt(s, sub, i) {
      if i + |sub| <= |s| {
        assert s[i..i + |sub|][0] == s[i] && s[i..i + |sub|][1] == s[i + 1];
      }
    }
  }

  /** `sub` occurring at `i` is contained. */
  lemma ContainsAt(s: string, sub: string, i: nat)
    requires OccursAt(s, sub, i)
    ensures Contains(s, sub)
  {
    ContainsIffOccurs(s, sub);
  }

  lemma StyleKeyGemini()
    ensures StyleKey("Gemini") == "gemini"
  {
    assert LowerAscii("Gemini") == "gemini";
    ContainsAt("gemini", "gemini", 0);
  }

  lemma StyleKeyClaude()
    ensures StyleKey("Claude") == "claude"
  {
    NotContains("claude", "gemini");
    ContainsAt("claude", "claude", 0);
    assert LowerAscii("Claude") == "claude";
  }

  lemma LowerChatGpt()
    ensures LowerAscii("ChatGPT") == "chatgpt"
  {
  }

  lemma ChatGptNames()
    ensures !Contains("chatgpt", "gemini") && !Contains("chatgpt", "claude")
    ensures !Contains("chatgpt", "studio")
  {
    NotContains("chatgpt", "gemini");
    NotContains("chatgpt", "claude");
    NotContains("chatgpt", "studio");
  }

  lemma StyleKeyChatGpt()
    ensures StyleKey("ChatGPT") == "gpt"
  {
    LowerChatGpt();
    ChatGptNames();
  }

  lemma LowerAiStudio()
    ensures LowerAscii("AI Studio") == "ai studio"
  {
  }

  /** `ai studio` contains neither earlier name. */
  lemma AiStudioLacks(p: string)
    requires p == "gemini" || p == "claude"
    ensures !Contains("ai studio", p)
  {
    NotContains("ai studio", p);
  }

  lemma AiStudioHasStudio()
    ensures Contains("ai studio", "studio")
  {
    assert "ai studio"[3..9] == "studio";
    ContainsAt("ai studio", "studio", 3);
  }

  lemma AiStudioNames()
    ensures !Contains("ai studio", "gemini") && !Contains("ai studio", "claude")
    ensures Contains("ai studio", "studio")
  {
    AiStudioLacks("gemini");
    AiStudioLacks("claude");
    AiStudioHasStudio();
  }

  lemma StyleKeyAiStudio()
    ensures StyleKey("AI Studio") == "aistudio"
  {
    LowerAiStudio();
    AiStudioNames();
  }

  /** Every agent label a presence announcement carries gets the badge
      style of its own site. */
  lemma StyleKeyOfLabels(k: AgentKey)
    ensures StyleKey(AgentLabel(k)) == ConfigKey(k)
  {
    match k
    case Gemini => StyleKeyGemini();
    case Claude => StyleKeyClaude();
    case Gpt => StyleKeyChatGpt();
    case AiStudio => StyleKeyAiStudio();
  }
}
