/** A comparison with the fixed URLs that fails leaves no trace, and every
    reachable state of the parser satisfies the invariant. */
module UrlReplay {
  import opened UrlTypes
  import opened UrlMachine
  import opened UrlInvariant

  // ----- Reading the beginning of a fixed URL without fixed URLs -----

  /** Where a comparison may begin from: just before a URL, or inside its host. */
  predicate BaseOk(cfg: Config, b: Core) {
    && CoreInv(cfg, b)
    && (b.state.LookupWithoutFixed? || (b.state.Host? && Early(b)))
  }

  lemma PlainFeedOne(cfg: Config, k: Core, c: char)
    ensures PlainFeed(cfg, k, [c]) == PlainStep(cfg, k, c)
  {
    hide PlainStep;
    assert [c][..0] == "";
    assert PlainFeed(cfg, k, [c][..0]) == k;
  }

  lemma PlainFeedSnoc(cfg: Config, k: Core, s: string, c: char)
    ensures PlainFeed(cfg, k, s + [c]) == PlainStep(cfg, PlainFeed(cfg, k, s), c)
  {
    hide PlainStep;
    assert (s + [c])[..|s|] == s;
  }

  predicate PhaseState(ph: Phase, b: Core, k: Core) {
    match ph
    case Start => k == b
    case Ws(n) =>
      || k.state.Host? || (n == 1 && k.state == InPrefix(Www2))
      || (n == 2 && k.state == InPrefix(Www3)) || (n == 3 && k.state == InPrefix(Www4))
    case First => k.state.Host? || k.state.InProtocol?
    case Dot => k.state == InHost(HostDot)
    case Label(d) => k.state.HostN? && k.domain != "" && Lower(k.domain) == d
    case Tail => k.state == InPath(HostSlash) || k.state == InPath(Path) || k.state == InPath(PathSlash)
    case Bad => false
  }

  /** The plain parser has read the text `v`, which ends in phase `ph`, starting from `b`. */
  predicate Replayed(ph: Phase, b: Core, k: Core, v: string) {
    && PhaseState(ph, b, k)
    && k.buf == b.buf + v && k.report == b.report && k.tail == b.tail && !k.isEmail && k.extension.NoExtension?
  }

  lemma LowerSnoc(s: string, c: char)
    ensures Lower(s + [c]) == Lower(s) + [ToLower(c)]
  {
  }

  lemma ProtocolKnown(cfg: Config, s: ProtocolState, p: Protocol, c: char)
    requires NameChar(c) || c == '.'
    ensures match ProtocolNext(cfg, s, p, c)
      case Advance(to, next) =>
        (c != '.' && to.InProtocol?) || (next.NoProtocol? && to == if c == '.' then InHost(HostDot) else Host)
      case AsHost(kept) => kept.NoProtocol?
      case Drop => false
  {
  }

  lemma HostKnown(k: Core, c: char)
    requires k.state.Host? && (NameChar(c) || c == '.')
    ensures HostStep(k, c) ==
      Consume(if c == '.' then k.(state := InHost(HostDot)) else k.(domain := k.domain + [c]))
  {
  }

  lemma FirstReplay(cfg: Config, k: Core, c: char)
    requires (k.state.InProtocol? || k.state.Host?) && (NameChar(c) || c == '.')
    ensures var o := if k.state.Host? then HostStep(k, c) else ProtocolStep(cfg, k, c);
      && o.Consume? && o.next == k.(state := o.next.state, protocol := o.next.protocol, domain := o.next.domain)
      && (if c == '.' then o.next.state == InHost(HostDot) else o.next.state.Host? || o.next.state.InProtocol?)
  {
    hide ProtocolNext, HostStep;
    if k.state.Host? {
      HostKnown(k, c);
    } else {
      ProtocolKnown(cfg, k.state.proto, k.protocol, c);
      HostKnown(k.(state := Host, protocol := NoProtocol), c);
    }
  }

  /** A plain step that keeps the character and goes to the state of the next phase. */
  lemma KeptReplay(cfg: Config, ph: Phase, b: Core, k: Core, v: string, c: char, n: Core)
    requires !Comparing(k.state) && PlainOutcome(cfg, k, c) == Consume(n) && PhaseState(ph, b, n) && !ph.Start?
    requires k.buf == b.buf + v && n.buf == k.buf && n.report == b.report && n.tail == b.tail
    requires !n.isEmail && n.extension.NoExtension?
    ensures Replayed(ph, b, PlainStep(cfg, k, c), v + [c])
  {
    assert b.buf + (v + [c]) == k.buf + [c];
  }

  lemma DotReplay(cfg: Config, b: Core, k: Core, c: char)
    requires PhaseState(Dot, b, k) && IsLetterOrDigit(c)
    ensures var o := HostPartStep(cfg, k, c);
      o.Consume? && o.next == k.(state := HostN, domain := [c], segments := o.next.segments, ipv4 := o.next.ipv4)
      && PhaseState(Label([ToLower(c)]), b, o.next)
  {
    assert Lower([c]) == [ToLower(c)];
  }

  lemma LabelReplay(cfg: Config, d: string, b: Core, k: Core, c: char)
    requires PhaseState(Label(d), b, k) && !k.isEmail
    requires NextPhase(cfg.tld, Label(d), c) != Bad
    ensures var o := HostNStep(cfg, k, c);
      o.Consume? && o.next == k.(state := o.next.state, domain := o.next.domain)
      && PhaseState(NextPhase(cfg.tld, Label(d), c), b, o.next)
  {
    LowerSnoc(k.domain, c);
  }

  lemma TailReplay(cfg: Config, b: Core, k: Core, c: char)
    requires PhaseState(Tail, b, k) && PathChar(c)
    ensures var o := PathStep(cfg, k, c);
      o.Consume? && o.next == k.(state := o.next.state) && PhaseState(Tail, b, o.next)
  {
  }

  lemma WwwReplay(b: Core, k: Core, n: nat, c: char)
    requires PhaseState(Ws(n), b, k) && (Is(c, 'w') || NameChar(c))
    ensures var o := if k.state.Host? then HostStep(k, c) else PrefixStep(k, c);
      o.Consume? && o.next == k.(state := o.next.state, domain := o.next.domain)
      && PhaseState(if Is(c, 'w') && n < 3 then Ws(n + 1) else First, b, o.next)
  {
  }

  lemma StartReplay(cfg: Config, b: Core, c: char)
    requires BaseOk(cfg, b)
    requires NextPhase(cfg.tld, Start, c) != Bad
    ensures Replayed(NextPhase(cfg.tld, Start, c), b, PlainStep(cfg, b, c), [c])
  {
  }

  lemma ReplayStep(cfg: Config, ph: Phase, b: Core, k: Core, v: string, c: char)
    requires BaseOk(cfg, b) && Replayed(ph, b, k, v)
    requires NextPhase(cfg.tld, ph, c) != Bad
    ensures Replayed(NextPhase(cfg.tld, ph, c), b, PlainStep(cfg, k, c), v + [c])
  {
    hide PlainStep, PlainOutcome, NextPhase;
    if ph.Start? {
      assert v == "" by { assert |b.buf + v| == |b.buf|; }
      assert v + [c] == [c];
      StartReplay(cfg, b, c);
    } else {
      PhaseOutcome(cfg, ph, b, k, c);
      hide PhaseState;
      KeptReplay(cfg, NextPhase(cfg.tld, ph, c), b, k, v, c, PlainOutcome(cfg, k, c).next);
    }
  }

  lemma PhaseOutcome(cfg: Config, ph: Phase, b: Core, k: Core, c: char)
    requires !ph.Start? && PhaseState(ph, b, k) && NextPhase(cfg.tld, ph, c) != Bad && !k.isEmail
    ensures var o, next := PlainOutcome(cfg, k, c), NextPhase(cfg.tld, ph, c);
      && !Comparing(k.state) && o.Consume? && PhaseState(next, b, o.next) && !next.Start?
      && o.next.buf == k.buf && o.next.report == k.report && o.next.tail == k.tail
      && !o.next.isEmail && o.next.extension == k.extension
  {
    hide IsAllowable, LookupStep, ProtocolStep, PrefixStep, HostStep, HostNStep, HostPartStep, PathStep;
    match ph
    case Ws(n) => WwwReplay(b, k, n, c);
    case First => FirstReplay(cfg, k, c);
    case Dot => DotReplay(cfg, b, k, c);
    case Label(d) => LabelReplay(cfg, d, b, k, c);
    case Tail => TailReplay(cfg, b, k, c);
  }

  /** Read without fixed URLs, the beginning of a fixed URL neither restarts the
      parser nor reports anything: every character is kept. */
  lemma {:induction false} ReplayKeepsAll(cfg: Config, b: Core, v: string)
    requires BaseOk(cfg, b) && PhaseAfter(cfg.tld, v) != Bad
    ensures Replayed(PhaseAfter(cfg.tld, v), b, PlainFeed(cfg, b, v), v)
  {
    if v == "" {
      assert b.buf + v == b.buf;
    } else {
      var u, c := v[..|v| - 1], v[|v| - 1];
      assert u + [c] == v;
      ReplayKeepsAll(cfg, b, u);
      ReplayStep(cfg, PhaseAfter(cfg.tld, u), b, PlainFeed(cfg, b, u), u, c);
    }
  }

  // ----- What a scan of the fixed URLs finds -----

  lemma {:induction false} ScanFinds(items: seq<Item>, cmp: Comparison, c: char, n: nat)
    requires |cmp.matched| == |items| && n <= |items|
    ensures var s := ScanItems(items, cmp, c, n);
      && (forall i :: 0 <= i < |items| ==>
            s.matched[i] ==
              if i < n && Considered(items, cmp.matched, cmp.pos, i) then IsEqual(c, items[i].str[cmp.pos])
              else cmp.matched[i])
      && (s.partial <==>
            exists i :: 0 <= i < n && Considered(items, cmp.matched, cmp.pos, i) && IsEqual(c, items[i].str[cmp.pos]))
      && (s.partial && s.ended ==> exists i :: 0 <= i < n && s.ok == items[i].ok)
  {
    hide IsEqual;
    if n == 0 {
    } else {
      ScanFinds(items, cmp, c, n - 1);
      assert ScanItems(items, cmp, c, n - 1).partial ==> ScanItems(items, cmp, c, n).partial;
    }
  }

  // ----- The invariant holds for ever -----

  lemma AgreesSnoc(buf: string, text: string, c: char)
    requires Agrees(buf, text) && (|buf| < |text| ==> IsEqual(c, text[|buf|]))
    ensures Agrees(buf + [c], text)
  {
  }

  /** The text compared so far is the beginning of a fixed URL. */
  lemma ComparedText(cfg: Config, p: Parser)
    requires Inv(cfg, p) && Comparing(p.core.state)
    ensures BaseOk(cfg, Base(p)) && Base(p).buf + p.cmp.buf == p.core.buf
    ensures PhaseAfter(cfg.tld, p.cmp.buf) != Bad
  {
    hide NextPhase, IsEqual, IsLetterOrDigit, Accepted;
    var i :| 0 <= i < |cfg.items| && p.cmp.matched[i] && p.cmp.pos <= |cfg.items[i].str|;
    var text := cfg.items[i].str;
    assert Agrees(p.cmp.buf, text);
    PhaseOfVariant(cfg.tld, p.cmp.buf, text);
    assert WellShapedItem(cfg.tld, cfg.items[i]);
    PhaseOfPrefix(cfg.tld, text, p.cmp.pos);
  }

  lemma ScanKeepsShape(cfg: Config, p: Parser, c: char)
    requires WellShaped(cfg) && |p.cmp.matched| == |cfg.items|
    ensures var (r, q) := CompareFixed(cfg, p, c);
      && (r.NoMatch? ==> q == p.(cmp := p.cmp.(matched := q.cmp.matched, ok := q.cmp.ok)))
      && (!r.NoMatch? ==>
            q.core == p.core.(buf := p.core.buf + [c])
            && q.cmp.buf == p.cmp.buf + [c] && q.cmp.pos == p.cmp.pos + 1 && q.cmp.fallback == p.cmp.fallback)
      && |q.cmp.matched| == |cfg.items|
      && (r.Match? ==> q.cmp.ok.FilesharingId? || q.cmp.ok.ProfileId?)
  {
    ScanFinds(cfg.items, p.cmp, c, |cfg.items|);
    var s := ScanItems(cfg.items, p.cmp, c, |cfg.items|);
    if s.partial && s.ended {
      var i :| 0 <= i < |cfg.items| && s.ok == cfg.items[i].ok;
      assert WellShapedItem(cfg.tld, cfg.items[i]);
    }
  }

  /** What a successful comparison with one more character leaves in the flags. */
  lemma ComparedOneMore(cfg: Config, p: Parser, c: char)
    requires |p.cmp.matched| == |cfg.items| && p.cmp.pos == |p.cmp.buf|
    requires forall i :: 0 <= i < |cfg.items| && p.cmp.matched[i] ==> Agrees(p.cmp.buf, cfg.items[i].str)
    requires !CompareFixed(cfg, p, c).0.NoMatch?
    ensures var q := CompareFixed(cfg, p, c).1;
      && (forall i :: 0 <= i < |cfg.items| && q.cmp.matched[i] ==> Agrees(q.cmp.buf, cfg.items[i].str))
      && (exists i :: 0 <= i < |cfg.items| && q.cmp.matched[i] && q.cmp.pos <= |cfg.items[i].str|)
  {
    ScanFinds(cfg.items, p.cmp, c, |cfg.items|);
    var q := CompareFixed(cfg, p, c).1;
    forall i | 0 <= i < |cfg.items| && q.cmp.matched[i]
      ensures Agrees(q.cmp.buf, cfg.items[i].str)
    {
      if p.cmp.matched[i] || Considered(cfg.items, p.cmp.matched, p.cmp.pos, i) {
        AgreesSnoc(p.cmp.buf, cfg.items[i].str, c);
      }
    }
  }

  lemma ComparisonGoesOn(cfg: Config, p: Parser, c: char)
    requires Inv(cfg, p) && Comparing(p.core.state)
    requires !CompareFixed(cfg, p, c).0.NoMatch?
    ensures Inv(cfg, CompareFixed(cfg, p, c).1)
    ensures Base(CompareFixed(cfg, p, c).1) == Base(p)
  {
    ScanKeepsShape(cfg, p, c);
    ComparedOneMore(cfg, p, c);
    var q := CompareFixed(cfg, p, c).1;
    assert q.core.buf[..|q.core.buf| - q.cmp.pos] == p.core.buf[..|p.core.buf| - p.cmp.pos];
    assert q.core.buf[|q.core.buf| - q.cmp.pos..] == q.cmp.buf;
    assert q.core.buf[0] == p.core.buf[0];
  }

  // ----- One character of the whole parser -----

  /** A character that begins a comparison always matches some fixed URL. */
  lemma ComparisonStarts(cfg: Config, p: Parser, c: char)
    requires Inv(cfg, p) && StartsComparison(cfg, p.core.state, c)
    ensures var q := StartComparison(cfg, p, c);
      && q.core == p.core.(state := q.core.state, buf := p.core.buf + [c])
      && (q.core.state.Compare? || q.core.state.FilesharingId? || q.core.state.ProfileId?)
      && q.cmp.buf == [c] && q.cmp.pos == 1 && |q.cmp.matched| == |cfg.items|
      && q.cmp.fallback == (if p.core.state.Lookup? then LookupWithoutFixed else Host)
      && (forall i :: 0 <= i < |cfg.items| && q.cmp.matched[i] ==> Agrees(q.cmp.buf, cfg.items[i].str))
      && (exists i :: 0 <= i < |cfg.items| && q.cmp.matched[i] && q.cmp.pos <= |cfg.items[i].str|)
      && (p.core.state.Lookup? ==> IsLetterOrDigit(c))
  {
    var fallback := if p.core.state.Lookup? then LookupWithoutFixed else Host;
    var cmp := Comparison("", 0, seq(|cfg.items|, _ => false), p.cmp.ok, fallback, 0);
    var p0 := p.(cmp := cmp);
    var i :| 0 <= i < |cfg.items| && cfg.items[i].str != "" && cfg.items[i].str[0] == c;
    assert Considered(cfg.items, cmp.matched, 0, i) && IsEqual(c, cfg.items[i].str[0]);
    ScanFinds(cfg.items, cmp, c, |cfg.items|);
    ScanKeepsShape(cfg, p0, c);
    ComparedOneMore(cfg, p0, c);
    FirstLetter(cfg, i);
  }

  lemma StartInv(cfg: Config, p: Parser, c: char)
    requires Inv(cfg, p) && StartsComparison(cfg, p.core.state, c)
    ensures Inv(cfg, StartComparison(cfg, p, c))
    ensures var q := StartComparison(cfg, p, c);
      Base(q) == p.core.(state := if p.core.state.Lookup? then LookupWithoutFixed else Host)
  {
    hide StartComparison, IsLetterOrDigit, Accepted, IsEqual, WellShapedItem;
    ComparisonStarts(cfg, p, c);
    var q := StartComparison(cfg, p, c);
    assert q.core.buf[0] == if p.core.state.Lookup? then c else p.core.buf[0];
    assert q.core.buf[..|q.core.buf| - 1] == p.core.buf;
    assert q.core.buf[|q.core.buf| - 1..] == [c];
  }

  lemma FirstLetter(cfg: Config, i: nat)
    requires WellShaped(cfg) && i < |cfg.items|
    ensures cfg.items[i].str != "" && IsLetterOrDigit(cfg.items[i].str[0])
  {
    assert WellShapedItem(cfg.tld, cfg.items[i]);
    var text := cfg.items[i].str;
    PhaseOfPrefix(cfg.tld, text, 1);
    assert text[..1][..0] == "" && PhaseAfter(cfg.tld, "") == Start;
  }

  /** The invariant survives every character. */
  lemma StepInv(cfg: Config, p: Parser, c: char)
    requires Inv(cfg, p)
    ensures Inv(cfg, Step(cfg, p, c))
  {
    if Comparing(p.core.state) {
      CompareStepInv(cfg, p, c);
    } else if StartsComparison(cfg, p.core.state, c) {
      StartInv(cfg, p, c);
    } else {
      PlainInv(cfg, p.core, c);
    }
  }

  /** The state in which a comparison reads its next character. */
  function Promoted(p: Parser): Parser {
    p.(core := p.core.(state :=
      if p.core.state.Compare? && p.cmp.safe != 0 && p.cmp.pos >= p.cmp.safe then CompareSafe else p.core.state))
  }

  lemma PromotedInv(cfg: Config, p: Parser)
    requires Inv(cfg, p) && Comparing(p.core.state)
    ensures Inv(cfg, Promoted(p)) && Base(Promoted(p)) == Base(p)
  {
    hide WellShapedItem, IsEqual, IsLetterOrDigit, Accepted;
    var q := Promoted(p);
    assert Base(q) == Base(p);
    assert CoreInv(cfg, q.core);
    hide CoreInv;
    assert ComparisonInv(cfg, q);
  }

  lemma CompareStepInv(cfg: Config, p: Parser, c: char)
    requires Inv(cfg, p) && Comparing(p.core.state)
    ensures Inv(cfg, Step(cfg, p, c))
  {
    hide PlainStep, CompareFixed, WellShapedItem, DomainAccepted;
    var p1 := Promoted(p);
    if CompareFixed(cfg, p1, c).0.NoMatch? {
      FailedComparison(cfg, p, c);
      PlainInv(cfg, PlainFeed(cfg, Base(p), p.cmp.buf), c);
    } else {
      PromotedInv(cfg, p);
      ScanKeepsShape(cfg, p1, c);
      ComparisonGoesOn(cfg, p1, c);
    }
  }

  /** A failed comparison is one plain step from where the plain parser would
      stand after the characters compared: nothing is lost, doubled or reported. */
  lemma FailedComparison(cfg: Config, p: Parser, c: char)
    requires Inv(cfg, p) && Comparing(p.core.state) && CompareFixed(cfg, Promoted(p), c).0.NoMatch?
    ensures var k := PlainFeed(cfg, Base(p), p.cmp.buf);
      && Step(cfg, p, c).core == PlainStep(cfg, k, c)
      && CoreInv(cfg, k) && !Comparing(k.state)
      && k.buf == p.core.buf && k.report == p.core.report && k.tail == p.core.tail
  {
    var p1 := Promoted(p);
    ScanKeepsShape(cfg, p1, c);
    ComparedText(cfg, p);
    ReplayKeepsAll(cfg, Base(p), p.cmp.buf);
    PlainFeedInv(cfg, Base(p), p.cmp.buf);
    assert Base(CompareFixed(cfg, p1, c).1) == Base(p);
  }

  /** What one character does to the buffer: it is kept, or the buffer is
      emptied, or a URL is reported and the buffer loses exactly its tail.
      A site, ftp, image or video URL that is reported has an accepted domain,
      although images and videos are never checked when they are saved. */
  lemma StepEffect(cfg: Config, p: Parser, c: char)
    requires Inv(cfg, p) && p.core.report.NoUrl?
    ensures BufferStep(p.core, Step(cfg, p, c).core, c)
    ensures var n := Step(cfg, p, c).core;
      n.report.Reported? && n.report.found.kind in {Site, FtpSite, Image, Video} ==> DomainAccepted(cfg, n)
  {
    if Comparing(p.core.state) {
      if CompareFixed(cfg, Promoted(p), c).0.NoMatch? {
        FailedComparison(cfg, p, c);
        PlainBuffer(cfg, PlainFeed(cfg, Base(p), p.cmp.buf), c);
      } else {
        ScanKeepsShape(cfg, Promoted(p), c);
      }
    } else if StartsComparison(cfg, p.core.state, c) {
      ComparisonStarts(cfg, p, c);
    } else {
      PlainBuffer(cfg, p.core, c);
    }
  }

  /** The same at the end of the text, except inside an unfinished fixed URL. */
  lemma FinishedDomainAccepted(cfg: Config, p: Parser)
    requires Inv(cfg, p) && p.core.report.NoUrl? && !p.core.state.CompareSafe?
    ensures var n := Finish(cfg, p).core;
      n.report.Reported? && n.report.found.kind in {Site, FtpSite, Image, Video} ==> DomainAccepted(cfg, n)
  {
    if SaveUrl(cfg, p.core).0 {
      SavedDomainAccepted(cfg, p.core);
    }
  }

  // ----- Giving the compared characters back -----

  /** The states in which no comparison runs or begins. */
  predicate Plainly(s: State) {
    !Comparing(s) && !s.Lookup? && s != InPrefix(CheckWww) && s != InPrefix(CheckFilesharing)
  }

  /** The parser after the first characters given back have been read again. */
  function GivenBack(cfg: Config, b: Core, cmp: Comparison, v: string): Parser {
    Parser(PlainFeed(cfg, b, v), cmp)
  }

  lemma GivenBackPlain(cfg: Config, b: Core, cmp: Comparison, v: string)
    requires WellShaped(cfg) && BaseOk(cfg, b) && PhaseAfter(cfg.tld, v) != Bad
    ensures Inv(cfg, GivenBack(cfg, b, cmp, v)) && Plainly(PlainFeed(cfg, b, v).state)
  {
    ReplayKeepsAll(cfg, b, v);
    PlainFeedInv(cfg, b, v);
  }

  lemma StepPlainly(cfg: Config, p: Parser, c: char)
    requires Plainly(p.core.state)
    ensures Step(cfg, p, c) == PlainParserStep(cfg, p, c)
  {
    hide PlainParserStep;
  }

  lemma PlainParserStepKept(cfg: Config, p: Parser, c: char)
    requires PlainStep(cfg, p.core, c).buf == p.core.buf + [c]
    ensures PlainParserStep(cfg, p, c) == Parser(PlainStep(cfg, p.core, c), p.cmp)
  {
    hide PlainOutcome;
    assert Restarts(cfg, p.core, c) ==> PlainStep(cfg, p.core, c) == Fresh();
    assert Fresh().buf != p.core.buf + [c];
  }

  /** Reading one character given back is a plain step that keeps it. */
  lemma GiveBackOne(cfg: Config, b: Core, cmp: Comparison, text: string, i: nat)
    requires WellShaped(cfg) && BaseOk(cfg, b) && i < |text| && PhaseAfter(cfg.tld, text) != Bad
    ensures var p := GivenBack(cfg, b, cmp, text[..i]);
      Inv(cfg, p) && Plainly(p.core.state) && Step(cfg, p, text[i]) == GivenBack(cfg, b, cmp, text[..i + 1])
  {
    hide PlainStep, Inv, BaseOk, Plainly, PlainParserStep, Step, PhaseAfter, PhaseState, WellShaped;
    var v, u, c := text[..i], text[..i + 1], text[i];
    assert u == v + [c];
    PhaseOfPrefix(cfg.tld, text, i);
    PhaseOfPrefix(cfg.tld, text, i + 1);
    GivenBackPlain(cfg, b, cmp, v);
    ReplayKeepsAll(cfg, b, v);
    ReplayKeepsAll(cfg, b, u);
    assert b.buf + u == (b.buf + v) + [c];
    PlainFeedSnoc(cfg, b, v, c);
    var p := GivenBack(cfg, b, cmp, v);
    StepPlainly(cfg, p, c);
    PlainParserStepKept(cfg, p, c);
  }

  lemma GiveBackLast(cfg: Config, b: Core, cmp: Comparison, text: string, c: char)
    requires WellShaped(cfg) && BaseOk(cfg, b) && PhaseAfter(cfg.tld, text) != Bad
    ensures var p := GivenBack(cfg, b, cmp, text);
      Inv(cfg, p) && Plainly(p.core.state) && Step(cfg, p, c) == PlainParserStep(cfg, p, c)
  {
    GivenBackPlain(cfg, b, cmp, text);
    StepPlainly(cfg, GivenBack(cfg, b, cmp, text), c);
  }

  /** What a failed comparison leaves for the characters to be given back. */
  lemma CanGiveBack(cfg: Config, p: Parser, c: char)
    requires Inv(cfg, p) && Comparing(p.core.state)
    ensures |p.cmp.matched| == |cfg.items| && p.cmp.pos == |p.cmp.buf| <= |p.core.buf|
    ensures var (r, q) := CompareFixed(cfg, Promoted(p), c);
      r.NoMatch? ==>
        && q.cmp.buf == p.cmp.buf && q.cmp.pos == p.cmp.pos && q.core.buf == p.core.buf
        && |q.cmp.matched| == |cfg.items|
        && Base(q) == Base(p) && BaseOk(cfg, Base(q)) && PhaseAfter(cfg.tld, q.cmp.buf) != Bad
  {
    hide CompareFixed, CoreInv, PhaseAfter;
    ComparedText(cfg, p);
    ScanKeepsShape(cfg, Promoted(p), c);
  }
}
