/** URLs in sentences: whatever stands before a written URL, the parser with its fixed URLs finds it. */
module UrlSentences {
  import opened UrlTypes
  import opened UrlMachine
  import opened UrlInvariant
  import opened UrlReplay
  import opened UrlRuns
  import UrlHosts
  import opened UrlParsing
  import opened UrlTexts
  import opened UrlPaths
  import opened UrlsFound
  import opened UrlAddresses
  import opened UrlMail
  import opened UrlFixed
  import UrlReading
  import Tokens = MessageTokenizing

  // ----- A blank settles everything -----

  /** A character of no fixed URL. */
  predicate Foreign(c: char) { !PathChar(c) && c != '.' }

  lemma {:induction false} FixedUrlHasNoForeign(tld: string -> bool, s: string, i: nat)
    requires PhaseAfter(tld, s) != Bad && i < |s|
    ensures !Foreign(s[i])
  {
    hide NextPhase;
    PhaseOfPrefix(tld, s, |s| - 1);
    if i == |s| - 1 {
      PhaseHasNoForeign(tld, PhaseAfter(tld, s[..i]), s[i]);
    } else {
      FixedUrlHasNoForeign(tld, s[..|s| - 1], i);
    }
  }

  lemma PhaseHasNoForeign(tld: string -> bool, ph: Phase, c: char)
    requires NextPhase(tld, ph, c) != Bad
    ensures !Foreign(c)
  {
  }

  lemma ForeignIsItself(c: char)
    requires Foreign(c)
    ensures ToLower(c) == c
  {
  }

  lemma ForeignMatchesNothing(cfg: Config, p: Parser, c: char)
    requires WellShaped(cfg) && |p.cmp.matched| == |cfg.items| && Foreign(c)
    ensures CompareFixed(cfg, p, c).0.NoMatch? && !InCompareSet(cfg.items, c)
  {
    hide PhaseAfter, Foreign;
    ScanFinds(cfg.items, p.cmp, c, |cfg.items|);
    ForeignIsItself(c);
    forall i, j | 0 <= i < |cfg.items| && 0 <= j < |cfg.items[i].str|
      ensures cfg.items[i].str[j] != c
    {
      assert WellShapedItem(cfg.tld, cfg.items[i]);
      FixedUrlHasNoForeign(cfg.tld, cfg.items[i].str, j);
    }
  }

  lemma BlankOutcome(cfg: Config, k: Core, c: char)
    requires !Comparing(k.state) && Blank(c)
    ensures var o := PlainOutcome(cfg, k, c);
      o.Restart? || o.Save? || (o == Ignore(k) && (k.state.Lookup? || k.state.LookupWithoutFixed?))
  {
    hide Accepted, SaveUrl, ExtensionNext, PathDotStep, ProtocolNext;
    BlankSigns(c);
    if k.state.InExtension? {
      BlankInside(k.state.letter, c);
    } else if k.state == InPath(PathDot) {
      BlankAfterDot(k, c);
    } else if k.state.InProtocol? {
      BlankProtocol(cfg, k.state.proto, k.protocol, c);
    }
  }

  lemma BlankSigns(c: char)
    requires Blank(c)
    ensures IsSpace(c) && !IsAllowable(c) && !IsLetterOrDigit(c) && !IsDigit(c) && !IsIdChar(c)
    ensures c != '.' && c != ':' && c != '@' && c != '/' && c != '?' && c != '#'
    ensures !Is(c, 'w') && !Is(c, 'h') && !Is(c, 'f') && !Is(c, 'i') && !Is(c, 'm') && Foreign(c)
  {
  }

  lemma BlankProtocol(cfg: Config, s: ProtocolState, p: Protocol, c: char)
    requires Blank(c)
    ensures var m := ProtocolNext(cfg, s, p, c); m.Drop? || m.AsHost?
  {
  }

  lemma PlainBlank(cfg: Config, k: Core, c: char)
    requires CoreInv(cfg, k) && !Comparing(k.state) && Blank(c) && !k.state.LookupWithoutFixed?
    ensures var n := PlainStep(cfg, k, c); n == Fresh() || n.report.Reported?
  {
    hide PlainOutcome, SaveUrl;
    BlankOutcome(cfg, k, c);
    var o := PlainOutcome(cfg, k, c);
    if o.Save? && SaveUrl(cfg, o.done).0 {
      SavedIsReported(cfg, o.done);
    }
  }

  lemma SavedIsReported(cfg: Config, k: Core)
    requires SaveUrl(cfg, k).0
    ensures SaveUrl(cfg, k).1.report.Reported?
  {
  }

  /** After a blank a parser has reported a URL or stands where it started. */
  lemma BlankSettles(cfg: Config, p: Parser, c: char)
    requires Inv(cfg, p) && Blank(c) && !p.core.state.LookupWithoutFixed?
    ensures var n := Step(cfg, p, c).core; n == Fresh() || n.report.Reported?
  {
    hide PlainStep, CoreInv, CompareFixed, InCompareSet;
    BlankSigns(c);
    ForeignStep(cfg, p, c);
    var k := if Comparing(p.core.state) then PlainFeed(cfg, Base(p), p.cmp.buf) else p.core;
    PlainBlank(cfg, k, c);
  }

  /** A character of no fixed URL gets a plain step. */
  lemma ForeignStep(cfg: Config, p: Parser, c: char)
    requires Inv(cfg, p) && Foreign(c)
    ensures var k := if Comparing(p.core.state) then PlainFeed(cfg, Base(p), p.cmp.buf) else p.core;
      && Step(cfg, p, c).core == PlainStep(cfg, k, c) && CoreInv(cfg, k) && !Comparing(k.state)
      && (k.state.LookupWithoutFixed? ==> p.core.state.LookupWithoutFixed?)
  {
    hide PlainStep, CoreInv, CompareFixed, InCompareSet;
    if Comparing(p.core.state) {
      CanGiveBack(cfg, p, c);
      ForeignMatchesNothing(cfg, Promoted(p), c);
      FailedComparison(cfg, p, c);
      NotAtBase(cfg, p);
    } else {
      var q := p.(cmp := p.cmp.(matched := seq(|cfg.items|, _ => false)));
      ForeignMatchesNothing(cfg, q, c);
    }
  }

  lemma NotAtBase(cfg: Config, p: Parser)
    requires Inv(cfg, p) && Comparing(p.core.state)
    ensures !PlainFeed(cfg, Base(p), p.cmp.buf).state.LookupWithoutFixed?
  {
    hide PlainFeed, NextPhase, CoreInv;
    ComparedText(cfg, p);
    ReplayKeepsAll(cfg, Base(p), p.cmp.buf);
    UrlHosts.Begun(cfg.tld, p.cmp.buf);
  }

  lemma NeverWithoutFixed(cfg: Config, p: Parser, c: char)
    requires Inv(cfg, p) && !p.core.state.LookupWithoutFixed?
    ensures !Step(cfg, p, c).core.state.LookupWithoutFixed?
  {
    hide PlainStep, CoreInv, CompareFixed, InCompareSet;
    if Comparing(p.core.state) {
      if CompareFixed(cfg, Promoted(p), c).0.NoMatch? {
        FailedComparison(cfg, p, c);
        NotAtBase(cfg, p);
        PlainNeverWithout(cfg, PlainFeed(cfg, Base(p), p.cmp.buf), c);
      } else {
        ScanKeepsShape(cfg, Promoted(p), c);
      }
    } else if StartsComparison(cfg, p.core.state, c) {
      ComparisonStarts(cfg, p, c);
    } else {
      PlainNeverWithout(cfg, p.core, c);
    }
  }

  lemma PlainNeverWithout(cfg: Config, k: Core, c: char)
    requires CoreInv(cfg, k) && !Comparing(k.state) && !k.state.LookupWithoutFixed?
    ensures !PlainStep(cfg, k, c).state.LookupWithoutFixed?
  {
    hide PlainOutcome, CoreInv, SaveUrl;
    OutcomeHolds(cfg, k, c);
    var o := PlainOutcome(cfg, k, c);
    if o.Save? && SaveUrl(cfg, o.done).0 {
      SavedHasBuffer(cfg, o.done);
      SaveSplits(cfg, o.done);
    }
  }

  // ----- A text that is kept as a whole -----

  lemma PlainGrows(cfg: Config, k: Core, c: char)
    requires CoreInv(cfg, k) && !Comparing(k.state)
    ensures var n := PlainStep(cfg, k, c);
      |n.buf| <= |k.buf| + 1 && (|n.buf| == |k.buf| + 1 ==> n.buf == k.buf + [c] && n.report == k.report)
  {
    hide PlainOutcome, CoreInv, SaveUrl;
    OutcomeHolds(cfg, k, c);
    var o := PlainOutcome(cfg, k, c);
    if o.Save? && SaveUrl(cfg, o.done).0 {
      SavedHasBuffer(cfg, o.done);
      SaveSplits(cfg, o.done);
    }
  }

  /** The plain parser has kept every character of a text. */
  predicate KeptAll(cfg: Config, s: string) { |PlainFeed(cfg, Fresh(), s).buf| == |s| }

  lemma {:induction false} KeptFeed(cfg: Config, s: string)
    ensures var n := PlainFeed(cfg, Fresh(), s);
      |n.buf| <= |s| && (KeptAll(cfg, s) ==> n.buf == s && n.report.NoUrl?)
    ensures KeptAll(cfg, s) && s != "" ==> KeptAll(cfg, s[..|s| - 1])
  {
    hide PlainStep, CoreInv;
    if s == "" {
    } else {
      var u, c := s[..|s| - 1], s[|s| - 1];
      KeptFeed(cfg, u);
      FreshInv(cfg);
      PlainFeedInv(cfg, Fresh(), u);
      PlainGrows(cfg, PlainFeed(cfg, Fresh(), u), c);
      assert u + [c] == s;
    }
  }

  // ----- Texts without fixed URLs -----

  /** The characters that a comparison has read. */
  function Compared(q: Parser): string { if Comparing(q.core.state) then q.cmp.buf else "" }

  /** No part of the text is one of the fixed URLs, in whatever case of letters. */
  ghost predicate NoFixedUrlIn(cfg: Config, s: string) {
    forall i, a, b :: 0 <= i < |cfg.items| && 0 <= a < b <= |s| ==> !Same(s[a..b], cfg.items[i].str)
  }

  /** No end of the text is the beginning of a fixed URL. */
  ghost predicate NoFixedUrlBegun(cfg: Config, s: string) {
    forall i, a :: 0 <= i < |cfg.items| && 0 <= a < |s| ==> !Variant(s[a..], cfg.items[i].str)
  }

  /** A comparison ends with a match only behind a whole fixed URL. */
  lemma MatchIsWhole(cfg: Config, p: Parser, c: char)
    requires |p.cmp.matched| == |cfg.items| && p.cmp.pos == |p.cmp.buf|
    requires forall i :: 0 <= i < |cfg.items| && p.cmp.matched[i] ==> Agrees(p.cmp.buf, cfg.items[i].str)
    requires CompareFixed(cfg, p, c).0.Match?
    ensures exists i :: 0 <= i < |cfg.items| && Same(p.cmp.buf + [c], cfg.items[i].str)
  {
    hide IsEqual;
    ScanFinds(cfg.items, p.cmp, c, |cfg.items|);
    ScanEnds(cfg.items, p.cmp, c, |cfg.items|);
    var i :| 0 <= i < |cfg.items| && Considered(cfg.items, p.cmp.matched, p.cmp.pos, i)
             && IsEqual(c, cfg.items[i].str[p.cmp.pos]);
    assert Same(p.cmp.buf + [c], cfg.items[i].str);
  }

  lemma CompletedIsWhole(cfg: Config, q: Parser, c: char)
    requires Inv(cfg, q) && Completes(cfg, q, c)
    ensures exists i :: 0 <= i < |cfg.items| && Same(Compared(q) + [c], cfg.items[i].str)
  {
    hide CompareFixed, CoreInv, WellShaped;
    if Comparing(q.core.state) {
      MatchIsWhole(cfg, Promoted(q), c);
    } else {
      ComparisonStarts(cfg, q, c);
      var fallback := if q.core.state.Lookup? then LookupWithoutFixed else Host;
      var q0 := q.(cmp := Comparison("", 0, seq(|cfg.items|, _ => false), q.cmp.ok, fallback, 0));
      MatchIsWhole(cfg, q0, c);
    }
  }

  /** What the parser has kept of a text of which the plain parser keeps everything. */
  lemma SameBuffer(cfg: Config, q: Parser, k: Core)
    requires Inv(cfg, q) && SameAsPlain(cfg, q, k)
    ensures q.core.buf == k.buf && q.core.report == k.report
    ensures |Compared(q)| <= |k.buf| && Compared(q) == k.buf[|k.buf| - |Compared(q)|..]
    ensures Comparing(q.core.state) ==> Compared(q) != ""
  {
    hide CoreInv;
    if Comparing(q.core.state) {
      ComparedText(cfg, q);
      ReplayKeepsAll(cfg, Base(q), q.cmp.buf);
    }
  }

  lemma NoneCompleted(cfg: Config, q: Parser, s: string)
    requires Inv(cfg, q) && s != "" && NoFixedUrlIn(cfg, s)
    requires |Compared(q)| < |s| && Compared(q) == s[|s| - 1 - |Compared(q)|..|s| - 1]
    ensures !Completes(cfg, q, s[|s| - 1])
  {
    hide Same, Completes, Inv;
    var v, c := Compared(q), s[|s| - 1];
    assert s[|s| - 1 - |v|..|s|] == v + [c];
    if Completes(cfg, q, c) {
      CompletedIsWhole(cfg, q, c);
    }
  }

  lemma LastNotCompleted(cfg: Config, q: Parser, s: string)
    requires Inv(cfg, q) && s != "" && KeptAll(cfg, s) && NoFixedUrlIn(cfg, s)
    requires SameAsPlain(cfg, q, PlainFeed(cfg, Fresh(), s[..|s| - 1]))
    ensures !Completes(cfg, q, s[|s| - 1])
  {
    hide PlainFeed, Completes, Inv, NoFixedUrlIn, SameAsPlain;
    var u := s[..|s| - 1];
    KeptFeed(cfg, s);
    KeptFeed(cfg, u);
    SameBuffer(cfg, q, PlainFeed(cfg, Fresh(), u));
    assert u[|u| - |Compared(q)|..] == s[|s| - 1 - |Compared(q)|..|s| - 1];
    NoneCompleted(cfg, q, s);
  }

  lemma {:induction false} NothingCompletedIn(cfg: Config, p: Parser, s: string)
    requires Inv(cfg, p) && p.core == Fresh() && KeptAll(cfg, s) && NoFixedUrlIn(cfg, s)
    ensures NothingCompleted(cfg, p, s) && SameAsPlain(cfg, Feed(cfg, p, s), PlainFeed(cfg, Fresh(), s))
  {
    hide PlainFeed, Completes, Inv, NoFixedUrlIn, SameAsPlain, Feed, KeptAll;
    if s == "" {
    } else {
      var u := s[..|s| - 1];
      KeptFeed(cfg, s);
      FewerFixedUrls(cfg, s);
      NothingCompletedIn(cfg, p, u);
      LastNotCompleted(cfg, Feed(cfg, p, u), s);
    }
    UnmatchedRun(cfg, p, s);
  }

  lemma FewerFixedUrls(cfg: Config, s: string)
    requires s != "" && NoFixedUrlIn(cfg, s)
    ensures NoFixedUrlIn(cfg, s[..|s| - 1])
  {
    var u := s[..|s| - 1];
    forall i, a, b | 0 <= i < |cfg.items| && 0 <= a < b <= |u|
      ensures !Same(u[a..b], cfg.items[i].str)
    {
      assert u[a..b] == s[a..b];
    }
  }

  // ----- URLs in sentences -----

  /** What a parser without fixed URLs reports of a text that stands in a sentence up to a place. */
  function PlainReport(cfg: Config, t: string, s: string, j: nat): Report
    requires j <= |s|
  {
    var k := PlainFeed(cfg, Fresh(), t);
    if j == |s| then SaveUrl(cfg, k).1.report else PlainStep(cfg, k, s[j]).report
  }

  /** A text stands in a sentence: at the beginning or behind a blank, and last or followed by a character
      of no fixed URL. No fixed URL hides in it, and at the end of the sentence none begins in it. */
  ghost predicate StandsAt(cfg: Config, s: string, i: nat, t: string) {
    && t != "" && i + |t| <= |s| && s[i..i + |t|] == t && (i == 0 || Blank(s[i - 1])) && NoFixedUrlIn(cfg, t)
    && if i + |t| == |s| then NoFixedUrlBegun(cfg, t) else Foreign(s[i + |t|])
  }

  lemma TextIsKept(cfg: Config, w: Written)
    requires WrittenOk(cfg, w)
    ensures KeptAll(cfg, Text(w))
  {
    hide PlainFeed, WrittenOk, Text, DomainAccepted, RestShape, Stands;
    UrlRead(cfg, w);
  }

  /** A text that is kept as a whole and holds no fixed URL is read without a report. */
  lemma {:induction false} ReadWhole(cfg: Config, p: Parser, s: string, i: nat, n: nat)
    requires Tokens.Ready(cfg, p) && p.core == Fresh() && i + n <= |s|
    requires KeptAll(cfg, s[i..i + n]) && NoFixedUrlIn(cfg, s[i..i + n])
    ensures var q := Feed(cfg, p, s[i..i + n]);
      && Tokens.Ready(cfg, q) && SameAsPlain(cfg, q, PlainFeed(cfg, Fresh(), s[i..i + n]))
      && Tokens.UrlsFrom(cfg, p, s, i) == Tokens.UrlsFrom(cfg, q, s, i + n)
    decreases n
  {
    hide PlainFeed, Inv, NoFixedUrlIn, SameAsPlain, KeptAll, Step;
    var t := s[i..i + n];
    NothingCompletedIn(cfg, p, t);
    KeptFeed(cfg, t);
    SameBuffer(cfg, Feed(cfg, p, t), PlainFeed(cfg, Fresh(), t));
    if n == 0 {
      assert t == "";
    } else {
      var u := s[i..i + n - 1];
      assert t[..|t| - 1] == u;
      FewerFixedUrls(cfg, t);
      ReadWhole(cfg, p, s, i, n - 1);
    }
  }

  lemma ComparedBegins(cfg: Config, q: Parser)
    requires Inv(cfg, q) && Comparing(q.core.state)
    ensures exists i :: 0 <= i < |cfg.items| && Variant(Compared(q), cfg.items[i].str)
  {
    hide CoreInv, WellShaped;
    var i :| 0 <= i < |cfg.items| && q.cmp.matched[i] && q.cmp.pos <= |cfg.items[i].str|;
    assert Agrees(q.cmp.buf, cfg.items[i].str) && Variant(Compared(q), cfg.items[i].str);
  }

  lemma NotBegun(cfg: Config, q: Parser, s: string)
    requires Inv(cfg, q) && NoFixedUrlBegun(cfg, s) && KeptAll(cfg, s)
    requires SameAsPlain(cfg, q, PlainFeed(cfg, Fresh(), s))
    ensures !Comparing(q.core.state)
  {
    hide PlainFeed, Inv, SameAsPlain, Variant;
    KeptFeed(cfg, s);
    SameBuffer(cfg, q, PlainFeed(cfg, Fresh(), s));
    assert s[|s| - |Compared(q)|..] == Compared(q);
    if Comparing(q.core.state) {
      ComparedBegins(cfg, q);
    }
  }

  /** A parser that starts anew behind every blank. */
  ghost predicate Settled(cfg: Config, p: Parser, s: string, i: nat) {
    && i <= |s| && Tokens.Ready(cfg, p) && !p.core.state.LookupWithoutFixed?
    && (i == 0 || Blank(s[i - 1]) ==> p.core == Fresh())
  }

  /** Read from its first character on, what the plain parser reports is the next URL to be found. */
  lemma FoundHere(cfg: Config, p: Parser, s: string, i: nat, t: string)
    requires Settled(cfg, p, s, i) && StandsAt(cfg, s, i, t) && KeptAll(cfg, t)
    requires PlainReport(cfg, t, s, i + |t|).Reported?
    ensures var urls := Tokens.UrlsFrom(cfg, p, s, i); urls != [] && urls[0] == PlainReport(cfg, t, s, i + |t|).found
  {
    hide PlainFeed, PlainStep, Inv, NoFixedUrlIn, NoFixedUrlBegun, KeptAll, Step, SaveUrl, Foreign;
    var j := i + |t|;
    ReadWhole(cfg, p, s, i, |t|);
    var q := Feed(cfg, p, t);
    if j == |s| {
      NotBegun(cfg, q, t);
      FinishSaves(cfg, q);
    } else {
      ForeignStep(cfg, q, s[j]);
    }
  }

  function After(q: Parser): Parser { if q.core.report.Reported? then Reset(q) else q }

  lemma ReadOn(cfg: Config, p: Parser, s: string, i: nat)
    requires Settled(cfg, p, s, i) && i < |s|
    ensures var n := After(Tokens.Read(cfg, p, s[i]));
      && Settled(cfg, n, s, i + 1)
      && forall u :: u in Tokens.UrlsFrom(cfg, n, s, i + 1) ==> u in Tokens.UrlsFrom(cfg, p, s, i)
  {
    hide Inv, Step, Blank;
    NeverWithoutFixed(cfg, p, s[i]);
    if Blank(s[i]) {
      BlankSettles(cfg, p, s[i]);
    }
  }

  lemma {:induction false} FoundFrom(cfg: Config, p: Parser, s: string, i: nat, j: nat, t: string)
    requires Settled(cfg, p, s, i) && i <= j && StandsAt(cfg, s, j, t) && KeptAll(cfg, t)
    requires PlainReport(cfg, t, s, j + |t|).Reported?
    ensures PlainReport(cfg, t, s, j + |t|).found in Tokens.UrlsFrom(cfg, p, s, i)
    decreases j - i
  {
    hide Tokens.Ready, Tokens.UrlsFrom, PlainReport, KeptAll, Inv;
    if i == j {
      FoundHere(cfg, p, s, i, t);
    } else {
      ReadOn(cfg, p, s, i);
      FoundFrom(cfg, After(Tokens.Read(cfg, p, s[i])), s, i + 1, j, t);
    }
  }

  /** Whatever a sentence holds before a text, the parser with its fixed URLs finds what the plain parser
      reports of that text alone. */
  lemma FoundInSentence(cfg: Config, s: string, i: nat, t: string)
    requires WellShaped(cfg) && Tokens.Ready(cfg, NewParser(cfg)) && StandsAt(cfg, s, i, t) && KeptAll(cfg, t)
    requires PlainReport(cfg, t, s, i + |t|).Reported?
    ensures PlainReport(cfg, t, s, i + |t|).found in Tokens.UrlsFrom(cfg, NewParser(cfg), s, 0)
  {
    hide Tokens.Ready, PlainReport, KeptAll;
    FoundFrom(cfg, NewParser(cfg), s, 0, i, t);
  }

  /** Every written URL of a sentence is among the URLs found, told as expected, if the character behind
      it is one at which it ends. */
  lemma UrlInSentence(cfg: Config, s: string, i: nat, w: Written)
    requires WellShaped(cfg) && Tokens.Ready(cfg, NewParser(cfg)) && WrittenOk(cfg, w) && StandsAt(cfg, s, i, Text(w))
    requires i + |Text(w)| < |s| ==> EndsAt(w, s[i + |Text(w)|])
    ensures exists u :: u in Tokens.UrlsFrom(cfg, NewParser(cfg), s, 0) && Expected(w, u)
  {
    hide Tokens.Ready, Expected, StandsAt, WrittenOk, EndsAt, Text, PlainFeed;
    hide SaveUrl, PlainStep, KeptAll, Tokens.UrlsFrom;
    TextIsKept(cfg, w);
    TextInside(cfg, s, i, Text(w));
    var j := i + |Text(w)|;
    if j == |s| {
      FoundAtTextEnd(cfg, w);
    } else {
      FoundAtEnd(cfg, w, s[j]);
      PlainFeedSnoc(cfg, Fresh(), Text(w), s[j]);
    }
    FoundInSentence(cfg, s, i, Text(w));
  }

  lemma TextInside(cfg: Config, s: string, i: nat, t: string)
    requires StandsAt(cfg, s, i, t)
    ensures i + |t| <= |s|
  {
  }

  /** So is every e-mail address in a known domain. */
  lemma AddressInSentence(cfg: Config, s: string, i: nat, a: Address)
    requires WellShaped(cfg) && Tokens.Ready(cfg, NewParser(cfg)) && StandsAt(cfg, s, i, AddressText(a))
    requires AddressOk(a) && KnownDomain(cfg, a)
    requires i + |AddressText(a)| < |s| ==> var c := s[i + |AddressText(a)|]; Blank(c) || c in ",!\"'`>]);"
    ensures exists u :: u in Tokens.UrlsFrom(cfg, NewParser(cfg), s, 0) && AddressTold(a, u)
  {
    hide Tokens.Ready, StandsAt, PlainFeed, SaveUrl, PlainStep, KeptAll, Tokens.UrlsFrom, TakenForPrefix, KnownDomain;
    hide AddressTold, AddressText, Blank, Labels, UserText, LabelText;
    var t := AddressText(a);
    AddressIsKept(cfg, a);
    TextInside(cfg, s, i, t);
    var j := i + |t|;
    if j == |s| {
      AddressAtEnd(cfg, a);
    } else {
      AddressFound(cfg, a, s[j]);
      PlainFeedSnoc(cfg, Fresh(), t, s[j]);
    }
    FoundInSentence(cfg, s, i, t);
  }

  lemma AddressIsKept(cfg: Config, a: Address)
    requires AddressOk(a)
    ensures KeptAll(cfg, AddressText(a))
  {
    hide PlainFeed, AddressText, TakenForPrefix, UserText, LabelText;
    AddressRead(cfg, a);
  }

  /** And one name behind a scheme, if enough of it is heard. */
  lemma OneNameInSentence(cfg: Config, s: string, i: nat, p: Protocol, scheme: string, t: string)
    requires WellShaped(cfg) && Tokens.Ready(cfg, NewParser(cfg)) && StandsAt(cfg, s, i, scheme + "://" + t)
    requires !p.NoProtocol? && Spells(scheme, SchemeName(p)) && Spoken(cfg, p) && OneName(p, t) && NameHeard(t)
    requires var j := i + |scheme + "://" + t|; j < |s| ==> !UrlChar(s[j])
    ensures exists u :: u in Tokens.UrlsFrom(cfg, NewParser(cfg), s, 0) && SchemeTold(p, scheme + "://" + t, u)
  {
    hide Tokens.Ready, StandsAt, PlainFeed, SaveUrl, PlainStep, KeptAll, Tokens.UrlsFrom, SchemeTold, NameHeard, Spells;
    hide OneName, UrlChar, Spoken;
    var text := scheme + "://" + t;
    NameIsKept(cfg, p, scheme, t);
    TextInside(cfg, s, i, text);
    var j := i + |text|;
    if j == |s| {
      OneNameAtEnd(cfg, p, scheme, t);
    } else {
      OneNameFound(cfg, p, scheme, t, s[j]);
      PlainFeedSnoc(cfg, Fresh(), text, s[j]);
    }
    FoundInSentence(cfg, s, i, text);
  }

  lemma NameIsKept(cfg: Config, p: Protocol, scheme: string, t: string)
    requires !p.NoProtocol? && Spells(scheme, SchemeName(p)) && Spoken(cfg, p) && OneName(p, t)
    ensures KeptAll(cfg, scheme + "://" + t)
  {
    hide PlainFeed, Spells, OneName, NameHeard;
    SchemedNamed(cfg, p, scheme, t);
  }

  // ----- Fixed URLs behind a scheme or `www.` -----

  /** A scheme of the build, `www.`, or both. */
  predicate PrefixText(cfg: Config, p: Protocol, scheme: string, www: string) {
    && (if p.NoProtocol? then scheme == "" && www != "" else Spells(scheme, SchemeName(p)) && Spoken(cfg, p))
    && (www == "" || Spells(www, "www."))
  }

  function PrefixOf(p: Protocol, scheme: string, www: string): string {
    (if p.NoProtocol? then "" else scheme + "://") + www
  }

  lemma PrefixRead(cfg: Config, p: Protocol, scheme: string, www: string)
    requires PrefixText(cfg, p, scheme, www)
    ensures var x := PrefixOf(p, scheme, www);
      PlainFeed(cfg, Fresh(), x) == Fresh().(state := InPrefix(if www == "" then CheckWww else CheckFilesharing),
                                             protocol := p, hasPrefix := !p.NoProtocol?, buf := x)
  {
    hide PlainFeed, Spells, Spoken;
    var s := if p.NoProtocol? then "" else scheme + "://";
    if !p.NoProtocol? {
      UrlReading.SchemeRead(cfg, p, scheme);
    }
    var k := PlainFeed(cfg, Fresh(), s);
    NothingRead(cfg, Fresh());
    NothingRead(cfg, k);
    UrlReading.PlainFeedConcat(cfg, Fresh(), s, www);
    if www != "" {
      UrlReading.WwwRead(cfg, k, www);
    } else {
      assert s + www == s;
    }
  }

  lemma {:induction false} FeedConcat(cfg: Config, p: Parser, a: string, b: string)
    requires Inv(cfg, p)
    ensures Feed(cfg, p, a + b) == Feed(cfg, Feed(cfg, p, a), b)
  {
    hide Inv, Step;
    if b == "" {
      assert a + b == a;
    } else {
      FeedConcat(cfg, p, a, b[..|b| - 1]);
      assert (a + b)[..|a| + |b| - 1] == a + b[..|b| - 1];
    }
  }

  /** Behind a scheme and `www.`, in which no fixed URL begins, a fixed URL is recognised just as at the start. */
  lemma LinkBehindPrefix(cfg: Config, q: Parser, p: Protocol, scheme: string, www: string, v: string, ok: State)
    requires Inv(cfg, q) && q.core == Fresh() && PrefixText(cfg, p, scheme, www) && LinkTo(cfg, v, ok)
    requires var x := PrefixOf(p, scheme, www); NoFixedUrlIn(cfg, x) && NoFixedUrlBegun(cfg, x)
    requires www == "" ==> !Is(v[0], 'w')
    ensures var x := PrefixOf(p, scheme, www);
      Feed(cfg, q, x + v).core == Fresh().(state := ok, protocol := p, hasPrefix := !p.NoProtocol?, buf := x + v)
  {
    hide Inv, PlainFeed, NothingLonger, UrlFixed.Same, Feed, NoFixedUrlIn, NoFixedUrlBegun, PrefixOf;
    var x := PrefixOf(p, scheme, www);
    PrefixRead(cfg, p, scheme, www);
    assert KeptAll(cfg, x);
    NothingCompletedIn(cfg, q, x);
    NotBegun(cfg, Feed(cfg, q, x), x);
    var m := Feed(cfg, q, x);
    var i :| 0 <= i < |cfg.items| && UrlFixed.Same(v, cfg.items[i].str);
    FixedUrlRead(cfg, m, v, |v|, i);
    assert v[..|v|] == v;
    FeedConcat(cfg, q, x, v);
  }
}
