/** The ChatGPT tab's content script: the reply cleaner `cleanText` and the
    answers its `chrome.runtime.onMessage` router gives the side panel. */
module ChatGptDriver {
  import opened JsText
  import opened Wire

  /** Length matched at the start of `t` by `^p\n?` under the `i` flag (`p`
      a literal), or 0 when `p` does not match there. */
  function HeaderLength(t: string, p: string): (n: nat)
    ensures n <= |t|
  {
    if !StartsWithCI(t, p) then 0
    else if |p| < |t| && t[|p|] == '\n' then |p| + 1
    else |p|
  }

  /** Length of the run of `\d` characters at the start of `t`: all of them
      are digits, and the next character, if any, is not one. */
  function DigitRun(t: string): (n: nat)
    ensures n <= |t|
    ensures forall i :: 0 <= i < n ==> IsDigit(t[i])
    ensures n < |t| ==> !IsDigit(t[n])
  {
    if t != [] && IsDigit(t[0]) then 1 + DigitRun(t[1..]) else 0
  }

  /** Length matched at the start of `t` by `^\d+s\n` under the `i` flag, or
      0. The greedy digit run is the only candidate: a shorter run would be
      followed by a digit, which is never `s`. */
  function TimingLength(t: string): (n: nat)
    ensures n <= |t|
  {
    var d := DigitRun(t);
    if 0 < d && d + 1 < |t| && FoldAscii(t[d]) == 's' && t[d + 1] == '\n' then d + 2 else 0
  }

  /** `.replace(/^Thinking\.\.\.\n?/i, '')` */
  function StripThinking(t: string): string {
    t[HeaderLength(t, "Thinking...")..]
  }

  /** `.replace(/^ChatGPT said:\n?/i, '')` */
  function StripSaid(t: string): string {
    t[HeaderLength(t, "ChatGPT said:")..]
  }

  /** `.replace(/^\d+s\n/i, '')` */
  function StripTiming(t: string): string {
    t[TimingLength(t)..]
  }

  /** `cleanText(text)`: an empty (falsy) text gives `""`; otherwise the
      three header patterns are removed in this order, each at most once and
      each anchored at the start of what the previous step left, and the
      result is trimmed. */
  function CleanText(text: string): string {
    if text == [] then []
    else Trim(StripTiming(StripSaid(StripThinking(text))))
  }

  /** Every digit of `d` is a `\d`. */
  predicate AllDigits(d: string) {
    forall i :: 0 <= i < |d| ==> IsDigit(d[i])
  }

  /** The digit run of `d + rest` is exactly `d` when `rest` does not go on
      with a digit. */
  lemma {:induction false} DigitRunOf(d: string, rest: string)
    requires AllDigits(d)
    requires rest == [] || !IsDigit(rest[0])
    ensures DigitRun(d + rest) == |d|
    decreases |d|
  {
    if d != [] {
      assert (d + rest)[1..] == d[1..] + rest;
      DigitRunOf(d[1..], rest);
    }
  }

  /** A header that is there goes, together with one newline right after it,
      and only once: the rest is left as it is, even when it starts with the
      same header again. */
  lemma HeaderOnce(p: string, rest: string)
    ensures HeaderLength(p + rest, p) == |p| + (if rest != [] && rest[0] == '\n' then 1 else 0)
  {
    assert (p + rest)[..|p|] == p;
    if rest != [] {
      assert (p + rest)[|p|] == rest[0];
    }
  }

  /** Whenever something is removed it is a header: `p` in any case, then at
      most one newline. */
  lemma HeaderShape(t: string, p: string)
    ensures var n := HeaderLength(t, p);
            n == 0 || (StartsWithCI(t, p) && (n == |p| || (n == |p| + 1 && t[|p|] == '\n')))
  {
  }

  /** A timing line there (`d` digits, an `s` in either case, a newline) is
      removed, and nothing after it. */
  lemma TimingMatch(d: string, c: char, rest: string)
    requires d != [] && AllDigits(d)
    requires FoldAscii(c) == 's'
    ensures StripTiming(d + [c, '\n'] + rest) == rest
  {
    var t := d + [c, '\n'] + rest;
    assert t == d + ([c, '\n'] + rest);
    DigitRunOf(d, [c, '\n'] + rest);
    assert t[|d|] == c && t[|d| + 1] == '\n';
    assert t[|d| + 2..] == rest;
  }

  /** Whatever the timing step removes is a timing line. */
  lemma TimingShape(t: string)
    ensures var n := TimingLength(t);
            n == 0 || (n >= 3 && AllDigits(t[..n - 2]) && FoldAscii(t[n - 2]) == 's' && t[n - 1] == '\n')
  {
  }

  /** `Thinking...` is removed with one newline after it, and only once. */
  lemma ThinkingStrippedOnce(rest: string)
    ensures StripThinking("Thinking..." + rest) == if rest != [] && rest[0] == '\n' then rest[1..] else rest
  {
    var t := "Thinking..." + rest;
    HeaderOnce("Thinking...", rest);
    assert t[11..] == rest;
  }

  /** `ChatGPT said:` is removed with one newline after it, and only once. */
  lemma SaidStrippedOnce(rest: string)
    ensures StripSaid("ChatGPT said:" + rest) == if rest != [] && rest[0] == '\n' then rest[1..] else rest
  {
    var t := "ChatGPT said:" + rest;
    HeaderOnce("ChatGPT said:", rest);
    assert t[13..] == rest;
  }

  lemma ThinkingLineStripped(t: string)
    ensures StripThinking("Thinking...\n" + t) == t
  {
    assert "Thinking...\n" + t == "Thinking..." + ("\n" + t);
    ThinkingStrippedOnce("\n" + t);
    assert ("\n" + t)[1..] == t;
  }

  lemma SaidLineStripped(t: string)
    ensures StripSaid("ChatGPT said:\n" + t) == t
  {
    assert "ChatGPT said:\n" + t == "ChatGPT said:" + ("\n" + t);
    SaidStrippedOnce("\n" + t);
    assert ("\n" + t)[1..] == t;
  }

  /** The three headers, in their order, all go. */
  lemma AllHeadersStripped(d: string, c: char, rest: string)
    requires d != [] && AllDigits(d)
    requires FoldAscii(c) == 's'
    ensures CleanText("Thinking...\n" + ("ChatGPT said:\n" + (d + [c, '\n'] + rest))) == Trim(rest)
  {
    var t3 := d + [c, '\n'] + rest;
    ThinkingLineStripped("ChatGPT said:\n" + t3);
    SaidLineStripped(t3);
    TimingMatch(d, c, rest);
  }

  /** The order is fixed: a text that opens with a timing line keeps a
      `Thinking...` or `ChatGPT said:` header that follows it. */
  lemma TimingFirstKeepsRest(d: string, c: char, rest: string)
    requires d != [] && AllDigits(d)
    requires FoldAscii(c) == 's'
    ensures CleanText(d + [c, '\n'] + rest) == Trim(rest)
  {
    var t := d + [c, '\n'] + rest;
    assert t[0] == d[0];
    assert !StartsWithCI(t, "Thinking...") by { assert FoldAscii(t[0]) != FoldAscii("Thinking..."[0]); }
    assert !StartsWithCI(t, "ChatGPT said:") by { assert FoldAscii(t[0]) != FoldAscii("ChatGPT said:"[0]); }
    TimingMatch(d, c, rest);
  }

  /** Stripping runs before trimming: a text that begins with whitespace has
      no header removed and is only trimmed. */
  lemma LeadingSpaceOnlyTrims(text: string)
    requires text != [] && IsSpace(text[0])
    ensures CleanText(text) == Trim(text)
  {
    assert FoldAscii(text[0]) == text[0];
    assert !StartsWithCI(text, "Thinking...") by { assert FoldAscii(text[0]) != FoldAscii("Thinking..."[0]); }
    assert !StartsWithCI(text, "ChatGPT said:") by { assert FoldAscii(text[0]) != FoldAscii("ChatGPT said:"[0]); }
    assert DigitRun(text) == 0;
  }

  /** The cleaned reply is a contiguous piece of the scraped text, and it
      neither starts nor ends with whitespace. */
  lemma CleanTextShape(text: string) returns (i: nat)
    ensures OccursAt(text, CleanText(text), i)
    ensures Trim(CleanText(text)) == CleanText(text)
  {
    if text == [] {
      i := 0;
      return;
    }
    var a := StripThinking(text);
    var b := StripSaid(a);
    var m := HeaderLength(text, "Thinking...") + HeaderLength(a, "ChatGPT said:") + TimingLength(b);
    assert StripTiming(b) == text[m..];
    i := DropTrimAt(text, m);
    TrimIdempotent(text[m..]);
  }

  /** What `harvestLatestResponse` found on the page: the `innerText` of the
      chosen assistant element, no element at all, or an exception with its
      message. */
  datatype Scrape = Found(innerText: string) | NotFound | Failed(message: string)

  /** `harvestLatestResponse()`, given what the page offered. */
  function HarvestLatestResponse(s: Scrape): string {
    match s
    case Found(t) => CleanText(t)
    case NotFound => "[No response found - selectors failed]"
    case Failed(msg) => "[Harvest Error: " + msg + "]"
  }

  /** The objects the router hands to `sendResponse`. */
  datatype Response =
    | Status(status: string, agent: string)
    | Harvested(success: bool, text: string)

  /** The router's effect on one request: the answer sent at once, if any,
      and whether the listener returned `true` to keep the channel open for
      a later answer. */
  datatype Routed = Routed(reply: Option<Response>, keepOpen: bool)

  /** The `onMessage` listener. `DISTRIBUTE_PROMPT` is answered later by
      `runDistribute`, which is not part of this model. */
  function OnMessage(req: TabRequest, scrape: Scrape): Routed {
    match req
    case Ping => Routed(Some(Status("OK", "ChatGPT")), false)
    case DistributePrompt(_) => Routed(None, true)
    case HarvestLatest => Routed(Some(Harvested(true, HarvestLatestResponse(scrape))), false)
    case OtherAction(_) => Routed(None, false)
  }

  /** What the side panel's harvest callback takes from an answer:
      `res.text` when `res.success` holds, nothing otherwise. */
  function HarvestedText(r: Routed): Option<string> {
    match r.reply
    case Some(Harvested(true, t)) => Some(t)
    case _ => None
  }

  /** Only the two synchronous actions are answered at once, only a
      distribution keeps the channel open, and `PING` gets the status
      object. */
  lemma RouterShape(req: TabRequest, scrape: Scrape)
    ensures OnMessage(req, scrape).reply.Some? <==> req.Ping? || req.HarvestLatest?
    ensures OnMessage(req, scrape).keepOpen <==> req.DistributePrompt?
    ensures req.Ping? ==> OnMessage(req, scrape).reply == Some(Status("OK", "ChatGPT"))
  {
  }

  /** A harvest always reports success, even when nothing was found or the
      scrape threw, so the side panel always gets a text back: the cleaned
      reply, which is trimmed, or one of the two placeholders. */
  lemma HarvestAlwaysSucceeds(scrape: Scrape)
    ensures HarvestedText(OnMessage(HarvestLatest, scrape)) == Some(HarvestLatestResponse(scrape))
    ensures scrape.Found? ==>
              var t := HarvestLatestResponse(scrape);
              t == CleanText(scrape.innerText) && Trim(t) == t
    ensures scrape.NotFound? ==> HarvestLatestResponse(scrape) == "[No response found - selectors failed]"
    ensures scrape.Failed? ==> HarvestLatestResponse(scrape) == "[Harvest Error: " + scrape.message + "]"
  {
    if scrape.Found? {
      var _ := CleanTextShape(scrape.innerText);
    }
  }

  /** Every other request gives the harvest callback nothing. */
  lemma OnlyHarvestCarriesText(req: TabRequest, scrape: Scrape)
    requires !req.HarvestLatest?
    ensures HarvestedText(OnMessage(req, scrape)) == None
  {
  }
}
