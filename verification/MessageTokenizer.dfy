/** Cutting a message into text and links (common.shared/message_processing/message_tokenizer.cpp). */
module MessageTokenizing {
  import opened UrlTypes
  import opened UrlMachine
  import opened UrlInvariant
  import opened UrlReplay
  import opened UrlParsing

  /** `End` is the terminator, the token of undefined type. */
  datatype Token = Text(text: string) | Link(url: Url) | End

  function Original(t: Token): string {
    match t
    case Text(s) => s
    case Link(u) => u.original
    case End => ""
  }

  /** The message that a sequence of tokens spells. */
  function Spelled(tokens: seq<Token>): string {
    if tokens == [] then "" else Original(tokens[0]) + Spelled(tokens[1..])
  }

  function LinksOf(tokens: seq<Token>): seq<Url> {
    if tokens == [] then []
    else (if tokens[0].Link? then [tokens[0].url] else []) + LinksOf(tokens[1..])
  }

  // ----- Mentions -----

  predicate MentionAt(m: string, i: nat) {
    i + 2 < |m| && m[i] == '@' && m[i + 1] == '['
  }

  /** The first closing bracket at or after `j`, or `i` if there is none. */
  function ClosingBracket(m: string, i: nat, j: nat): (r: nat)
    requires i < j && i < |m|
    ensures i <= r < |m| && (r == i || (j <= r && m[r] == ']'))
    ensures forall k :: j <= k < (if r == i then |m| else r) ==> m[k] != ']'
    decreases |m| - j
  {
    if j >= |m| then i else if m[j] == ']' then j else ClosingBracket(m, i, j + 1)
  }

  /** The character that the loop reads at position `i`: a mention is skipped up to its closing bracket. */
  function ReadAt(m: string, i: nat): (r: nat)
    requires i < |m|
    ensures i <= r < |m|
  {
    if MentionAt(m, i) then ClosingBracket(m, i, i + 2) else i
  }

  /** A position is skipped exactly where "@[" stands with a closing bracket behind it, and
      then to the first such bracket. */
  lemma MentionSkipped(m: string, i: nat)
    requires i < |m|
    ensures var r := ReadAt(m, i);
      if i + 2 < |m| && m[i] == '@' && m[i + 1] == '[' && ']' in m[i + 2..] then
        i + 2 <= r && m[r] == ']' && ']' !in m[i + 2..r]
      else r == i
  {
    var r := ReadAt(m, i);
    if i + 2 < |m| && ']' in m[i + 2..] {
      var k :| 0 <= k < |m| - i - 2 && m[i + 2..][k] == ']';
      assert m[i + 2 + k] == ']';
    }
    if r > i {
      InTail(m, i + 2, r);
    }
  }

  lemma InTail(m: string, from: nat, k: nat)
    requires from <= k < |m|
    ensures m[k] in m[from..]
  {
    assert m[from..][k - from] == m[k];
  }

  // ----- The tokens of a message, as a function -----

  /** What is left of a piece of text: nothing, if it is empty. */
  function TextToken(m: string, from: nat, to: nat): seq<Token>
    requires from <= to <= |m|
  {
    if from < to then [Text(m[from..to])] else []
  }

  ghost predicate Ready(cfg: Config, p: Parser) { Inv(cfg, p) && p.core.report.NoUrl? }

  ghost function Read(cfg: Config, p: Parser, c: char): (q: Parser)
    requires Ready(cfg, p)
    ensures q == Step(cfg, p, c) && BufferStep(p.core, q.core, c)
    ensures q.core.report.NoUrl? ==> Ready(cfg, q)
    ensures Ready(cfg, Reset(q))
  {
    StepInv(cfg, p, c);
    StepEffect(cfg, p, c);
    ResetInv(cfg, Step(cfg, p, c));
    Step(cfg, p, c)
  }

  ghost function ReadEnd(cfg: Config, p: Parser): (k: Core)
    requires Ready(cfg, p)
    ensures k == Finish(cfg, p).core
    ensures k.report.Reported? ==>
      k.tail <= |p.core.buf| && k.buf == p.core.buf[..|p.core.buf| - k.tail] && k.report.found.original == k.buf
  {
    FinishEffect(cfg, p);
    Finish(cfg, p).core
  }

  lemma ResetInv(cfg: Config, q: Parser)
    requires Inv(cfg, q)
    ensures Inv(cfg, Reset(q))
  {
  }

  lemma FinishEffect(cfg: Config, p: Parser)
    requires Ready(cfg, p)
    ensures var n := Finish(cfg, p).core;
      n.report.Reported? ==>
        n.tail <= |p.core.buf| && n.buf == p.core.buf[..|p.core.buf| - n.tail] && n.report.found.original == n.buf
  {
    hide UrlMachine.SaveUrl, CoreInv;
    if SaveUrl(cfg, p.core).0 {
      SavedHasBuffer(cfg, p.core);
      SaveSplits(cfg, p.core);
      NoTailYet(cfg, p);
    } else {
      UnsavedReportsNothing(cfg, p.core);
    }
  }

  lemma NoTailYet(cfg: Config, p: Parser)
    requires Ready(cfg, p)
    ensures p.core.tail == 0
  {
  }

  /** The parser has read up to `i`, and everything before `prev` has been cut. */
  ghost predicate Cutting(cfg: Config, p: Parser, m: string, i: nat, prev: nat) {
    Ready(cfg, p) && prev <= i <= |m| && |p.core.buf| <= i - prev
  }

  /** Where the text before a reported URL ends: the arithmetic of `append_tokens`. */
  function TextEnd(k: Core, i: nat): int { i - |k.buf| - k.tail }

  ghost function TokensFrom(cfg: Config, p: Parser, m: string, i: nat, prev: nat): seq<Token>
    requires Cutting(cfg, p, m, i, prev)
    decreases |m| - i
  {
    if i == |m| then LastTokens(cfg, p, m, prev)
    else
      var j := ReadAt(m, i);
      var q := Read(cfg, p, m[j]);
      if q.core.report.Reported? then
        TextToken(m, prev, TextEnd(q.core, j)) + [Link(q.core.report.found)]
        + TokensFrom(cfg, Reset(q), m, j + 1, j - q.core.tail)
      else TokensFrom(cfg, q, m, j + 1, prev)
  }

  ghost function LastTokens(cfg: Config, p: Parser, m: string, prev: nat): seq<Token>
    requires Cutting(cfg, p, m, |m|, prev)
  {
    var k := ReadEnd(cfg, p);
    if k.report.Reported? then
      TextToken(m, prev, TextEnd(k, |m|)) + [Link(k.report.found)] + TextToken(m, |m| - k.tail, |m|) + [End]
    else TextToken(m, prev, |m|) + [End]
  }

  /** The URLs that `parse_urls` finds. */
  ghost function UrlsFrom(cfg: Config, p: Parser, s: string, i: nat): seq<Url>
    requires Ready(cfg, p) && i <= |s|
    decreases |s| - i
  {
    if i == |s| then
      var k := ReadEnd(cfg, p);
      if k.report.Reported? then [k.report.found] else []
    else
      var q := Read(cfg, p, s[i]);
      if q.core.report.Reported? then [q.core.report.found] + UrlsFrom(cfg, Reset(q), s, i + 1)
      else UrlsFrom(cfg, q, s, i + 1)
  }

  // ----- Nothing is lost, nothing is invented -----

  lemma SpelledFirst(t: Token, b: seq<Token>)
    ensures Spelled([t] + b) == Original(t) + Spelled(b)
  {
    hide Original;
    assert ([t] + b)[1..] == b;
  }

  lemma {:induction false} SpelledConcat(a: seq<Token>, b: seq<Token>)
    ensures Spelled(a + b) == Spelled(a) + Spelled(b)
  {
    hide Spelled, Original;
    if a == [] {
      assert a + b == b && Spelled([]) == "" by { SpelledNothing(); }
    } else {
      var t, u := a[0], a[1..];
      SpelledConcat(u, b);
      SpelledFirst(t, u);
      SpelledFirst(t, u + b);
      assert a == [t] + u && a + b == [t] + (u + b);
      assert Original(t) + (Spelled(u) + Spelled(b)) == (Original(t) + Spelled(u)) + Spelled(b);
    }
  }

  lemma SpelledNothing()
    ensures Spelled([]) == ""
  {
  }

  lemma SpelledText(m: string, from: nat, to: nat)
    requires from <= to <= |m|
    ensures Spelled(TextToken(m, from, to)) == m[from..to]
  {
    if from < to {
      var t := Text(m[from..to]);
      assert [t][1..] == [];
    }
  }

  /** Every mention is skipped while the parser holds no URL text. */
  ghost predicate MentionsOutsideUrls(cfg: Config, p: Parser, m: string, i: nat)
    requires Ready(cfg, p) && i <= |m|
    decreases |m| - i
  {
    i < |m| ==>
      var j := ReadAt(m, i);
      var q := Read(cfg, p, m[j]);
      && (j > i ==> p.core.buf == "")
      && MentionsOutsideUrls(cfg, if q.core.report.Reported? then Reset(q) else q, m, j + 1)
  }

  lemma {:induction false} NoMentionsOutsideUrls(cfg: Config, p: Parser, m: string, i: nat)
    requires Ready(cfg, p) && i <= |m|
    requires forall k :: i <= k < |m| ==> !MentionAt(m, k)
    ensures MentionsOutsideUrls(cfg, p, m, i)
    decreases |m| - i
  {
    hide Step, Ready, Reset, BufferStep, ClosingBracket;
    if i < |m| {
      var q := Read(cfg, p, m[i]);
      NoMentionsOutsideUrls(cfg, if q.core.report.Reported? then Reset(q) else q, m, i + 1);
    }
  }

  lemma SpelledLink(u: Url)
    ensures Spelled([Link(u)]) == u.original
  {
    assert [Link(u)][1..] == [];
  }

  lemma Slices(m: string, prev: nat, i: nat, before: string, tail: nat)
    requires prev <= i <= |m| && |before| <= i - prev && before == m[i - |before|..i] && tail <= |before|
    ensures m[prev..i - |before|] + before[..|before| - tail] == m[prev..i - tail]
  {
    assert before[..|before| - tail] == m[i - |before|..i - tail];
  }

  /** The pieces cut off for one reported URL spell the message up to the URL's tail. */
  lemma CutSpells(m: string, prev: nat, i: nat, before: string, u: Url, tail: nat)
    requires prev <= i <= |m| && |before| <= i - prev && before == m[i - |before|..i]
    requires tail <= |before| && u.original == before[..|before| - tail]
    ensures Spelled(TextToken(m, prev, i - |before|) + [Link(u)]) == m[prev..i - tail]
  {
    hide Spelled, TextToken;
    SpelledText(m, prev, i - |before|);
    SpelledConcat(TextToken(m, prev, i - |before|), [Link(u)]);
    SpelledLink(u);
    Slices(m, prev, i, before, tail);
  }

  /** After one read the parser still holds exactly the end of what was read, and a
      reported URL with its tail is the end of what was read before. */
  lemma ReadKeepsSuffix(cfg: Config, p: Parser, m: string, i: nat, prev: nat)
    requires Cutting(cfg, p, m, i, prev) && i < |m| && (ReadAt(m, i) > i ==> p.core.buf == "")
    requires p.core.buf == m[i - |p.core.buf|..i]
    ensures var j, before := ReadAt(m, i), p.core.buf; var q := Read(cfg, p, m[j]);
      && |before| <= j - prev && before == m[j - |before|..j]
      && (q.core.report.Reported? ==>
           && q.core.tail <= |before| && q.core.report.found.original == before[..|before| - q.core.tail]
           && TextEnd(q.core, j) == j - |before| && Cutting(cfg, Reset(q), m, j + 1, j - q.core.tail)
           && Reset(q).core.buf == m[j + 1 - |Reset(q).core.buf|..j + 1])
      && (q.core.report.NoUrl? ==>
           Cutting(cfg, q, m, j + 1, prev) && q.core.buf == m[j + 1 - |q.core.buf|..j + 1])
  {
    hide Step, Inv, ReadAt, Reset;
    var j, k := ReadAt(m, i), p.core;
    assert k.buf == m[j - |k.buf|..j];
    var q := Read(cfg, p, m[j]);
    ResetBuffer(q);
    if q.core.report.NoUrl? {
      assert q.core.buf == "" || q.core.buf == m[j - |k.buf|..j + 1];
    }
  }

  lemma ResetBuffer(q: Parser)
    ensures Reset(q).core.buf == "" && Reset(q).core.report.NoUrl?
  {
  }

  /** The tokens from a position on, one read further. */
  lemma TokensSplit(cfg: Config, p: Parser, m: string, i: nat, prev: nat)
    requires Cutting(cfg, p, m, i, prev) && i < |m|
    ensures var j := ReadAt(m, i); var q := Read(cfg, p, m[j]);
      && (q.core.report.Reported? && prev <= TextEnd(q.core, j) <= |m|
          && Cutting(cfg, Reset(q), m, j + 1, j - q.core.tail) ==>
           TokensFrom(cfg, p, m, i, prev) ==
             (TextToken(m, prev, TextEnd(q.core, j)) + [Link(q.core.report.found)])
             + TokensFrom(cfg, Reset(q), m, j + 1, j - q.core.tail))
      && (q.core.report.NoUrl? && Cutting(cfg, q, m, j + 1, prev) ==>
           TokensFrom(cfg, p, m, i, prev) == TokensFrom(cfg, q, m, j + 1, prev))
  {
    hide Step, Ready, ReadAt, TextToken, BufferStep, Reset, TextEnd;
  }

  lemma Spell(a: seq<Token>, b: seq<Token>, m: string, prev: nat, k: nat)
    requires prev <= k <= |m| && Spelled(a) == m[prev..k] && Spelled(b) == m[k..]
    ensures Spelled(a + b) == m[prev..]
  {
    hide Spelled;
    SpelledConcat(a, b);
    assert m[prev..k] + m[k..] == m[prev..];
  }

  /** The tokens of a message spell the message, if its mentions lie outside its URLs. */
  lemma {:induction false} TokensSpell(cfg: Config, p: Parser, m: string, i: nat, prev: nat)
    requires Cutting(cfg, p, m, i, prev) && MentionsOutsideUrls(cfg, p, m, i)
    requires p.core.buf == m[i - |p.core.buf|..i]
    ensures Spelled(TokensFrom(cfg, p, m, i, prev)) == m[prev..]
    decreases |m| - i
  {
    hide Step, Ready, ReadAt, Spelled, TextToken, BufferStep, Reset, TextEnd, TokensFrom;
    if i == |m| {
      LastTokensSpell(cfg, p, m, prev);
      LastTokensFrom(cfg, p, m, prev);
    } else {
      var j := ReadAt(m, i);
      var q := Read(cfg, p, m[j]);
      var before := p.core.buf;
      ReadKeepsSuffix(cfg, p, m, i, prev);
      TokensSplit(cfg, p, m, i, prev);
      if q.core.report.Reported? {
        var u, tail := q.core.report.found, q.core.tail;
        CutSpells(m, prev, j, before, u, tail);
        TokensSpell(cfg, Reset(q), m, j + 1, j - tail);
        var cut := TextToken(m, prev, j - |before|) + [Link(u)];
        Spell(cut, TokensFrom(cfg, Reset(q), m, j + 1, j - tail), m, prev, j - tail);
      } else {
        TokensSpell(cfg, q, m, j + 1, prev);
      }
    }
  }

  lemma LastTokensFrom(cfg: Config, p: Parser, m: string, prev: nat)
    requires Cutting(cfg, p, m, |m|, prev)
    ensures TokensFrom(cfg, p, m, |m|, prev) == LastTokens(cfg, p, m, prev)
  {
    hide LastTokens, Ready;
  }

  lemma SpelledEnd()
    ensures Spelled([End]) == ""
  {
    assert [End][1..] == [];
  }

  lemma LastTokensSpell(cfg: Config, p: Parser, m: string, prev: nat)
    requires Cutting(cfg, p, m, |m|, prev) && p.core.buf == m[|m| - |p.core.buf|..]
    ensures Spelled(LastTokens(cfg, p, m, prev)) == m[prev..]
  {
    hide Ready, UrlMachine.Finish, Spelled, TextToken;
    var n := |m|;
    var k := ReadEnd(cfg, p);
    SpelledEnd();
    if k.report.Reported? {
      var before, u, tail := p.core.buf, k.report.found, k.tail;
      CutSpells(m, prev, n, before, u, tail);
      var cut := TextToken(m, prev, n - |before|) + [Link(u)];
      SpelledText(m, n - tail, n);
      SpelledConcat(cut, TextToken(m, n - tail, n));
      SpelledConcat(cut + TextToken(m, n - tail, n), [End]);
      assert m[prev..n - tail] + m[n - tail..n] == m[prev..];
    } else {
      SpelledText(m, prev, n);
      SpelledConcat(TextToken(m, prev, n), [End]);
    }
  }

  // ----- The same URLs as `parse_urls` -----

  lemma {:induction false} LinksConcat(a: seq<Token>, b: seq<Token>)
    ensures LinksOf(a + b) == LinksOf(a) + LinksOf(b)
  {
    if a == [] {
      assert a + b == b;
    } else {
      LinksConcat(a[1..], b);
      assert (a + b)[1..] == a[1..] + b;
    }
  }

  lemma LinksOfCut(m: string, from: nat, to: nat, u: Url)
    requires from <= to <= |m|
    ensures LinksOf(TextToken(m, from, to)) == [] && LinksOf(TextToken(m, from, to) + [Link(u)]) == [u]
    ensures LinksOf([End]) == []
  {
    LinksConcat(TextToken(m, from, to), [Link(u)]);
    assert [Link(u)][1..] == [] && [End][1..] == [];
    if from < to {
      assert [Text(m[from..to])][1..] == [];
    }
  }

  /** Without mentions the links of a message are exactly the URLs `parse_urls` finds in it, in order. */
  lemma {:induction false} LinksAreParsedUrls(cfg: Config, p: Parser, m: string, i: nat, prev: nat)
    requires Cutting(cfg, p, m, i, prev)
    requires forall k :: i <= k < |m| ==> !MentionAt(m, k)
    ensures LinksOf(TokensFrom(cfg, p, m, i, prev)) == UrlsFrom(cfg, p, m, i)
    decreases |m| - i
  {
    hide Step, Ready, TokensFrom, TextToken, LinksOf;
    if i == |m| {
      LastLinks(cfg, p, m, prev);
      LastTokensFrom(cfg, p, m, prev);
    } else {
      var q := Read(cfg, p, m[i]);
      TokensSplit(cfg, p, m, i, prev);
      if q.core.report.Reported? {
        var u, cut, next := q.core.report.found, TextEnd(q.core, i), i - q.core.tail;
        LinksOfCut(m, prev, cut, u);
        LinksConcat(TextToken(m, prev, cut) + [Link(u)], TokensFrom(cfg, Reset(q), m, i + 1, next));
        LinksAreParsedUrls(cfg, Reset(q), m, i + 1, next);
      } else {
        LinksAreParsedUrls(cfg, q, m, i + 1, prev);
      }
    }
  }

  lemma LastLinks(cfg: Config, p: Parser, m: string, prev: nat)
    requires Cutting(cfg, p, m, |m|, prev)
    ensures LinksOf(LastTokens(cfg, p, m, prev)) == UrlsFrom(cfg, p, m, |m|)
  {
    hide Ready, UrlMachine.Finish;
    var n := |m|;
    var k := ReadEnd(cfg, p);
    if k.report.Reported? {
      var u, cut := k.report.found, TextEnd(k, n);
      LinksOfCut(m, prev, cut, u);
      LinksOfCut(m, n - k.tail, n, u);
      LinksConcat(TextToken(m, prev, cut) + [Link(u)], TextToken(m, n - k.tail, n));
      LinksConcat(TextToken(m, prev, cut) + [Link(u)] + TextToken(m, n - k.tail, n), [End]);
    } else {
      LinksOfCut(m, prev, n, Url("", "", Site, NoProtocol, NoExtension));
      LinksConcat(TextToken(m, prev, n), [End]);
    }
  }

  // ----- The tokenizer -----

  ghost function ConfigFor(filesUrl: string, more: seq<Item>, biz: bool, dit: bool, tld: string -> bool): Config {
    Config(BuiltInItems(filesUrl, biz) + UrlParser.NonEmpty(more), biz, dit, tld)
  }

  lemma NewParserReady(cfg: Config)
    requires WellShaped(cfg)
    ensures Ready(cfg, NewParser(cfg)) && NewParser(cfg).core.buf == ""
  {
  }

  /** For every message whose mentions lie outside its URLs, and so for every
      message without mentions, the tokens spell the message. */
  lemma NothingLost(cfg: Config, m: string)
    requires WellShaped(cfg) && Ready(cfg, NewParser(cfg))
    requires (forall k :: 0 <= k < |m| ==> !MentionAt(m, k)) || MentionsOutsideUrls(cfg, NewParser(cfg), m, 0)
    ensures Spelled(TokensFrom(cfg, NewParser(cfg), m, 0, 0)) == m
  {
    hide Ready, TokensFrom;
    NewParserReady(cfg);
    if forall k :: 0 <= k < |m| ==> !MentionAt(m, k) {
      NoMentionsOutsideUrls(cfg, NewParser(cfg), m, 0);
    }
    TokensSpell(cfg, NewParser(cfg), m, 0, 0);
  }

  lemma ItemsOf(a: seq<Item>, more: seq<Item>, cfg: Config)
    requires WellShaped(cfg) && cfg.items == a + UrlParser.NonEmpty(more)
    ensures WellShaped(cfg.(items := a))
    ensures forall i :: 0 <= i < |more| && more[i].str != "" ==> WellShapedItem(cfg.tld, more[i])
  {
    hide WellShapedItem;
    forall i | 0 <= i < |a|
      ensures WellShapedItem(cfg.tld, a[i])
    {
      assert cfg.items[i] == a[i];
    }
    forall i | 0 <= i < |more| && more[i].str != ""
      ensures WellShapedItem(cfg.tld, more[i])
    {
      var j := KeptAt(more, i);
      assert cfg.items[|a| + j] == more[i];
    }
  }

  lemma KeptAt(more: seq<Item>, i: nat) returns (j: nat)
    requires i < |more| && more[i].str != ""
    ensures j < |UrlParser.NonEmpty(more)| && UrlParser.NonEmpty(more)[j] == more[i]
  {
    if i == |more| - 1 {
      j := |UrlParser.NonEmpty(more)| - 1;
    } else {
      j := KeptAt(more[..|more| - 1], i);
    }
  }

  class MessageTokenizer {
    var tokens: seq<Token>

    constructor (message: string, filesUrl: string, more: seq<Item>, biz: bool, dit: bool, tld: string -> bool)
      requires WellShaped(ConfigFor(filesUrl, more, biz, dit, tld))
      ensures var cfg := ConfigFor(filesUrl, more, biz, dit, tld);
        Ready(cfg, NewParser(cfg)) && tokens == TokensFrom(cfg, NewParser(cfg), message, 0, 0)
      ensures (forall k :: 0 <= k < |message| ==> !MentionAt(message, k)) ==> Spelled(tokens) == message
    {
      tokens := [];
      new;
      hide Ready, TokensFrom, Step, WellShaped, NewParser, InCompareSet, Spelled;
      ghost var cfg := ConfigFor(filesUrl, more, biz, dit, tld);
      ItemsOf(BuiltInItems(filesUrl, biz), more, cfg);
      var parser := new UrlParser(filesUrl, biz, dit, tld);
      parser.AddFixedUrls(more);
      NewParserReady(cfg);
      Cut(message, parser);
      if forall k :: 0 <= k < |message| ==> !MentionAt(message, k) {
        NothingLost(cfg, message);
      }
    }

    /** The loop over the message. */
    method Cut(message: string, parser: UrlParser)
      requires parser.Valid() && tokens == [] && Ready(parser.Cfg(), parser.Value()) && parser.buf == ""
      modifies this, parser
      ensures tokens == old(TokensFrom(parser.Cfg(), parser.Value(), message, 0, 0))
    {
      hide Ready, Step, Inv, InCompareSet, ReadAt, TextToken, UrlMachine.Finish;
      ghost var cfg, all := parser.Cfg(), TokensFrom(parser.Cfg(), parser.Value(), message, 0, 0);
      var prev: nat, i: nat := 0, 0;
      while i < |message|
        invariant parser.Valid() && parser.Cfg() == cfg && Cutting(cfg, parser.Value(), message, i, prev)
        invariant tokens + TokensFrom(cfg, parser.Value(), message, i, prev) == all
      {
        ghost var q := Read(cfg, parser.Value(), message[ReadAt(message, i)]);
        i := SkipMention(message, i);
        parser.Process(message[i]);
        if parser.HasUrl() {
          prev := AppendTokens(message, parser, prev, i);
        }
        i := i + 1;
      }
      CutLast(message, parser, prev);
    }

    /** What is pushed after the last character. */
    method CutLast(message: string, parser: UrlParser, start: nat)
      requires parser.Valid() && Cutting(parser.Cfg(), parser.Value(), message, |message|, start)
      modifies this, parser
      ensures tokens == old(tokens) + old(LastTokens(parser.Cfg(), parser.Value(), message, start))
    {
      hide Ready, Inv, InCompareSet, UrlMachine.Finish;
      ghost var k := ReadEnd(parser.Cfg(), parser.Value());
      var prev := start;
      assert old(LastTokens(parser.Cfg(), parser.Value(), message, start)) ==
        (if k.report.Reported? then
           TextToken(message, start, TextEnd(k, |message|)) + [Link(k.report.found)]
           + (TextToken(message, |message| - k.tail, |message|) + [End])
         else TextToken(message, start, |message|) + [End]);
      parser.Finish();
      if parser.HasUrl() {
        prev := AppendTokens(message, parser, prev, |message|);
      }
      if prev < |message| {
        tokens := tokens + [Text(message[prev..|message|])];
      }
      tokens := tokens + [End];
    }

    /** Moves past a mention to its closing bracket. */
    static method SkipMention(message: string, start: nat) returns (i: nat)
      requires start < |message|
      ensures i == ReadAt(message, start)
    {
      i := start;
      if message[i] == '@' && i + 1 < |message| && message[i + 1] == '[' && i < |message| - 2 {
        var j := i + 2;
        while j < |message|
          invariant i + 2 <= j <= |message| && i == start
          invariant ClosingBracket(message, start, start + 2) == ClosingBracket(message, start, j)
        {
          if message[j] == ']' {
            return j;
          }
          j := j + 1;
        }
      }
    }

    /** Pushes the text before the parser's URL and the URL; `prev` moves to the URL's tail. */
    method AppendTokens(message: string, parser: UrlParser, prev: nat, i: nat) returns (next: nat)
      requires parser.report.Reported? && prev <= i <= |message| && |parser.buf| + parser.tail <= i - prev
      modifies this, parser
      ensures tokens ==
        old(tokens) + TextToken(message, prev, old(TextEnd(parser.Seen(), i))) + [Link(old(parser.report).found)]
      ensures parser.Value() == Reset(old(parser.Value())) && next == i - old(parser.tail)
      ensures parser.items == old(parser.items) && (old(parser.Valid()) ==> parser.Valid())
    {
      var urlSize := |parser.buf|;
      var textSize: nat := i - prev - urlSize - parser.tail;
      if textSize > 0 {
        tokens := tokens + [Text(message[prev..prev + textSize])];
      }
      tokens := tokens + [Link(parser.report.found)];
      next := prev + (textSize + urlSize);
      parser.Reset();
    }

    predicate HasToken()
      reads this
    {
      |tokens| > 1
    }

    /** Drops the current token; the terminator stays for ever. */
    method Next()
      modifies this
      ensures tokens == if |old(tokens)| > 1 then old(tokens)[1..] else old(tokens)
    {
      if HasToken() {
        tokens := tokens[1..];
      }
    }
  }

  /** `url_parser::parse_urls`. */
  method ParseUrls(source: string, filesUrl: string, biz: bool, dit: bool, tld: string -> bool) returns (urls: seq<Url>)
    requires WellShaped(Config(BuiltInItems(filesUrl, biz), biz, dit, tld))
    ensures var cfg := Config(BuiltInItems(filesUrl, biz), biz, dit, tld);
      Ready(cfg, NewParser(cfg)) && urls == UrlsFrom(cfg, NewParser(cfg), source, 0)
  {
    hide Ready, UrlsFrom, WellShaped, NewParser, InCompareSet;
    var parser := new UrlParser(filesUrl, biz, dit, tld);
    NewParserReady(parser.Cfg());
    urls := CollectUrls(source, parser);
  }

  /** Its loop over the text. */
  method CollectUrls(source: string, parser: UrlParser) returns (urls: seq<Url>)
    requires parser.Valid() && Ready(parser.Cfg(), parser.Value())
    modifies parser
    ensures urls == old(UrlsFrom(parser.Cfg(), parser.Value(), source, 0))
  {
    hide Ready, Step, Inv, InCompareSet, Finish;
    ghost var cfg, all := parser.Cfg(), UrlsFrom(parser.Cfg(), parser.Value(), source, 0);
    urls := [];
    for i := 0 to |source|
      invariant parser.Valid() && parser.Cfg() == cfg && Ready(cfg, parser.Value())
      invariant urls + UrlsFrom(cfg, parser.Value(), source, i) == all
    {
      ghost var q := Read(cfg, parser.Value(), source[i]);
      parser.Process(source[i]);
      if parser.HasUrl() {
        urls := urls + [parser.report.found];
        parser.Reset();
      }
    }
    parser.Finish();
    if parser.HasUrl() {
      urls := urls + [parser.report.found];
    }
  }
}
