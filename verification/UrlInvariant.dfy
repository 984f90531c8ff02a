/** What every reachable state of the URL parser satisfies, and what one
    character does to the buffer and to the reported URL. */
module UrlInvariant {
  import opened UrlTypes
  import opened UrlMachine

  // ----- Which fixed URLs the parser can take back -----

  /** Where a fixed URL's text is: in its first label, after a dot, in a later
      label (kept in lower case) or in the path. */
  datatype Phase = Start | Ws(n: nat) | First | Dot | Label(name: string) | Tail | Bad

  predicate NameChar(c: char) { IsLetterOrDigit(c) || c == '-' }

  predicate PathChar(c: char) { NameChar(c) || c == '_' || c == '/' }

  function NextPhase(tld: string -> bool, ph: Phase, c: char): Phase {
    match ph
    case Start => if Is(c, 'w') then Ws(1) else if IsLetterOrDigit(c) then First else Bad
    case Ws(n) => if Is(c, 'w') && n < 3 then Ws(n + 1) else if NameChar(c) then First else Bad
    case First => if NameChar(c) then First else if c == '.' then Dot else Bad
    case Dot => if IsLetterOrDigit(c) then Label([ToLower(c)]) else Bad
    case Label(d) =>
      if NameChar(c) then Label(d + [ToLower(c)])
      else if c == '.' then Dot
      else if c == '/' && tld(d) then Tail
      else Bad
    case Tail => if PathChar(c) then Tail else Bad
    case Bad => Bad
  }

  function PhaseAfter(tld: string -> bool, s: string): Phase {
    if s == "" then Start else NextPhase(tld, PhaseAfter(tld, s[..|s| - 1]), s[|s| - 1])
  }

  /** A host of at least two labels with an accepted last label, whose first label
      is not `w`, `ww` or `www`, then perhaps a slash and a simple path. */
  predicate WellShapedItem(tld: string -> bool, item: Item) {
    item.str != "" && PhaseAfter(tld, item.str) != Bad && (item.ok.FilesharingId? || item.ok.ProfileId?)
  }

  ghost predicate WellShaped(cfg: Config) {
    forall i :: 0 <= i < |cfg.items| ==> WellShapedItem(cfg.tld, cfg.items[i])
  }

  /** `v` is the beginning of `text`, up to letter case. */
  predicate Variant(v: string, text: string) {
    |v| <= |text| && forall j :: 0 <= j < |v| ==> IsEqual(v[j], text[j])
  }

  lemma NextPhaseOfVariant(tld: string -> bool, ph: Phase, c: char, t: char)
    requires IsEqual(c, t)
    ensures NextPhase(tld, ph, c) == NextPhase(tld, ph, t)
  {
  }

  lemma {:induction false} PhaseOfVariant(tld: string -> bool, v: string, text: string)
    requires Variant(v, text)
    ensures PhaseAfter(tld, v) == PhaseAfter(tld, text[..|v|])
  {
    hide NextPhase, IsEqual;
    if v == "" {
    } else {
      var n := |v| - 1;
      PhaseOfVariant(tld, v[..n], text);
      assert text[..|v|][..n] == text[..n];
      NextPhaseOfVariant(tld, PhaseAfter(tld, v[..n]), v[n], text[n]);
    }
  }

  lemma {:induction false} PhaseOfPrefix(tld: string -> bool, s: string, n: nat)
    requires n <= |s| && PhaseAfter(tld, s) != Bad
    ensures PhaseAfter(tld, s[..n]) != Bad
    decreases |s|
  {
    if n == |s| {
      assert s[..n] == s;
    } else {
      PhaseOfPrefix(tld, s[..|s| - 1], n);
      assert s[..|s| - 1][..n] == s[..n];
    }
  }

  // ----- The invariant -----

  predicate EarlyState(s: State) { s.InProtocol? || s.InPrefix? || Comparing(s) }

  predicate Early(k: Core) {
    && k.domain == "" && k.extension.NoExtension? && !k.isEmail && k.segments == 1 && k.ipv4 == 1 && k.idLength == 0
  }

  /** The states that lie behind the host part. */
  predicate BehindHost(s: State) { s.InPath? || s.InExtension? }

  predicate CoreInv(cfg: Config, k: Core) {
    && (if k.state.Lookup? || k.state.LookupWithoutFixed? then k == Fresh().(state := k.state)
        else k.buf != "" && IsLetterOrDigit(k.buf[0]))
    && (EarlyState(k.state) ==> Early(k))
    && (k.state.FilesharingId? || k.state.ProfileId? ==> k.domain == "" && !k.isEmail)
    && (BehindHost(k.state) ==> DomainAccepted(cfg, k))
    && (!k.extension.NoExtension? ==> BehindHost(k.state))
    && k.needDomain && !k.isNotEmail
    && (k.report.NoUrl? ==> k.tail == 0)
  }

  predicate Agrees(buf: string, text: string) {
    forall j :: 0 <= j < |buf| && j < |text| ==> IsEqual(buf[j], text[j])
  }

  predicate ComparisonInv(cfg: Config, p: Parser) {
    Comparing(p.core.state) ==>
      && |p.cmp.matched| == |cfg.items|
      && 0 < p.cmp.pos == |p.cmp.buf| <= |p.core.buf|
      && p.core.buf[|p.core.buf| - p.cmp.pos..] == p.cmp.buf
      && (p.cmp.fallback.LookupWithoutFixed? || p.cmp.fallback.Host?)
      && CoreInv(cfg, Base(p))
      && (forall i :: 0 <= i < |cfg.items| && p.cmp.matched[i] ==> Agrees(p.cmp.buf, cfg.items[i].str))
      && (exists i :: 0 <= i < |cfg.items| && p.cmp.matched[i] && p.cmp.pos <= |cfg.items[i].str|)
  }

  ghost predicate Inv(cfg: Config, p: Parser) {
    WellShaped(cfg) && CoreInv(cfg, p.core) && ComparisonInv(cfg, p)
  }

  // ----- Saving -----

  lemma TrimmedKeepsStart(k: Core)
    requires k.buf != "" && IsLetterOrDigit(k.buf[0])
    ensures var t := Trimmed(k); t.buf != "" && t.buf[0] == k.buf[0] && !IsEnding(t.buf[|t.buf| - 1])
    ensures var t := Trimmed(k); t.tail - k.tail <= |k.buf| && t.buf == k.buf[..|k.buf| - (t.tail - k.tail)]
  {
    var n := TailLength(k.buf);
    assert !IsEnding(k.buf[0]);
  }

  /** A successful save keeps every field but the buffer, the tail and the report:
      it cuts the tail off the buffer and reports the rest. */
  lemma SaveSplits(cfg: Config, k: Core)
    requires k.buf != "" && IsLetterOrDigit(k.buf[0]) && SaveUrl(cfg, k).0
    ensures var n := SaveUrl(cfg, k).1;
      && k.tail <= n.tail <= k.tail + |k.buf| && n.buf == k.buf[..|k.buf| - (n.tail - k.tail)]
      && n.buf != "" && n.buf[0] == k.buf[0]
      && n == k.(buf := n.buf, tail := n.tail, report := n.report)
      && n.report.Reported? && n.report.found.original == n.buf
  {
    var n := SaveUrl(cfg, k).1;
    assert k.buf[..|k.buf|] == k.buf;
    if !k.state.CompareSafe? && !k.state.ProfileId? {
      TrimmedKeepsStart(k);
      var t := Trimmed(k);
      assert n == t.(report := Reported(MakeUrl(t, KindOf(cfg, t).1)));
    }
  }

  lemma UnsavedReportsNothing(cfg: Config, k: Core)
    requires !SaveUrl(cfg, k).0
    ensures SaveUrl(cfg, k).1.report == k.report
  {
  }

  lemma SavedHasBuffer(cfg: Config, k: Core)
    requires CoreInv(cfg, k) && SaveUrl(cfg, k).0
    ensures k.buf != "" && IsLetterOrDigit(k.buf[0])
  {
    hide KindOf, MakeUrl, Trimmed, DomainAccepted;
    assert k.state.LookupWithoutFixed? ==> k.segments == 1 && k.protocol.NoProtocol?;
  }

  /** Every kind of URL whose host matters has an accepted host when it is saved
      outside a running comparison; image and video get it from the invariant alone. */
  lemma SavedDomainAccepted(cfg: Config, k: Core)
    requires CoreInv(cfg, k) && SaveUrl(cfg, k).0 && !k.state.CompareSafe?
    ensures var n := SaveUrl(cfg, k).1;
      n.report.found.kind in {Site, FtpSite, Image, Video} ==> DomainAccepted(cfg, n)
  {
    if !NeverSaved(k.state) && !k.state.ProfileId? {
      var t := Trimmed(k);
      assert DomainAccepted(cfg, t) == DomainAccepted(cfg, k);
    }
  }

  // ----- One plain character -----

  /** What the outcome of a plain step may be. */
  predicate OutcomeInv(cfg: Config, k: Core, o: Outcome) {
    match o
    case Consume(n) =>
      && n.buf == k.buf && n.report == k.report && n.tail == k.tail
      && !n.state.Lookup? && !n.state.LookupWithoutFixed? && !Comparing(n.state)
      && (EarlyState(n.state) ==> Early(n))
      && (n.state.FilesharingId? || n.state.ProfileId? ==> n.domain == "" && !n.isEmail)
      && (BehindHost(n.state) ==> DomainAccepted(cfg, n))
      && (!n.extension.NoExtension? ==> BehindHost(n.state))
      && n.needDomain && !n.isNotEmail
    case Restart => true
    case Save(n) =>
      n.buf == k.buf && n.report == k.report && n.tail == k.tail && CoreInv(cfg, n) && !Comparing(n.state)
      && !n.state.Lookup? && !n.state.LookupWithoutFixed?
    case Ignore(n) => n == k && (k.state.Lookup? || k.state.LookupWithoutFixed?)
  }

  lemma OutcomeHolds(cfg: Config, k: Core, c: char)
    requires CoreInv(cfg, k) && !Comparing(k.state)
    ensures OutcomeInv(cfg, k, PlainOutcome(cfg, k, c))
    ensures (k.state.Lookup? || k.state.LookupWithoutFixed?) && PlainOutcome(cfg, k, c).Consume? ==> IsLetterOrDigit(c)
  {
    if k.state.Lookup? || k.state.LookupWithoutFixed? {
      LookupOutcome(cfg, k, c);
    } else if k.state.InProtocol? {
      ProtocolOutcome(cfg, k, c);
    } else if k.state.InPrefix? {
      PrefixOutcome(cfg, k, c);
    } else if k.state.FilesharingId? || k.state.ProfileId? {
      IdOutcome(cfg, k, c);
    } else if k.state.Host? {
      HostOutcome(cfg, k, c);
    } else if k.state.HostN? {
      HostNOutcome(cfg, k, c);
    } else if k.state.InHost? {
      HostPartOutcome(cfg, k, c);
    } else if k.state.InPath? {
      PathOutcome(cfg, k, c);
    } else {
      ExtensionOutcome(cfg, k, c);
    }
  }

  lemma LookupOutcome(cfg: Config, k: Core, c: char)
    requires CoreInv(cfg, k) && (k.state.Lookup? || k.state.LookupWithoutFixed?)
    ensures OutcomeInv(cfg, k, LookupStep(k, c))
    ensures LookupStep(k, c).Consume? ==> IsLetterOrDigit(c)
  {
  }

  lemma ProtocolOutcome(cfg: Config, k: Core, c: char)
    requires CoreInv(cfg, k) && k.state.InProtocol?
    ensures OutcomeInv(cfg, k, ProtocolStep(cfg, k, c))
  {
    hide IsAllowable, IsEnding, IsSpace, IsIpv4Segment, IsLetterOrDigit, Accepted;
    match ProtocolNext(cfg, k.state.proto, k.protocol, c)
    case Advance(to, next) =>
      ProtocolTargets(cfg, k.state.proto, k.protocol, c);
    case AsHost(kept) =>
      HostOutcome(cfg, k.(state := Host, protocol := kept), c);
    case Drop =>
  }

  lemma ProtocolTargets(cfg: Config, s: ProtocolState, p: Protocol, c: char)
    ensures var m := ProtocolNext(cfg, s, p, c);
      m.Advance? ==> m.to.InProtocol? || m.to.InPrefix? || m.to.InHost? || m.to.Host?
  {
  }

  lemma PrefixOutcome(cfg: Config, k: Core, c: char)
    requires CoreInv(cfg, k) && k.state.InPrefix?
    ensures OutcomeInv(cfg, k, PrefixStep(k, c))
  {
    hide IsAllowable, IsEnding, IsSpace, IsIpv4Segment, IsLetterOrDigit, Accepted;
  }

  lemma IdOutcome(cfg: Config, k: Core, c: char)
    requires CoreInv(cfg, k) && (k.state.FilesharingId? || k.state.ProfileId?)
    ensures OutcomeInv(cfg, k, IdStep(k, c))
  {
  }

  lemma HostOutcome(cfg: Config, k: Core, c: char)
    requires CoreInv(cfg, k.(state := Host)) && k.state.Host?
    ensures OutcomeInv(cfg, k, HostStep(k, c))
  {
    hide IsAllowable, IsEnding, IsSpace, IsIpv4Segment, IsLetterOrDigit, Accepted;
  }

  lemma HostNOutcome(cfg: Config, k: Core, c: char)
    requires CoreInv(cfg, k) && k.state.HostN?
    ensures OutcomeInv(cfg, k, HostNStep(cfg, k, c))
  {
    hide IsAllowable, IsEnding, IsSpace, IsIpv4Segment, IsLetterOrDigit, Accepted;
  }

  lemma HostPartOutcome(cfg: Config, k: Core, c: char)
    requires CoreInv(cfg, k) && k.state.InHost?
    ensures OutcomeInv(cfg, k, HostPartStep(cfg, k, c))
  {
    hide IsAllowable, IsEnding, IsSpace, IsIpv4Segment, IsLetterOrDigit, Accepted;
  }

  lemma PathDotOutcome(cfg: Config, k: Core, c: char)
    requires CoreInv(cfg, k) && k.state.InPath?
    ensures OutcomeInv(cfg, k, PathDotStep(k, c))
  {
    var first := ExtensionStart(c);
    assert first.InExtension? || first == InPath(PathDot);
  }

  lemma PathOutcome(cfg: Config, k: Core, c: char)
    requires CoreInv(cfg, k) && k.state.InPath?
    ensures OutcomeInv(cfg, k, PathStep(cfg, k, c))
  {
    hide IsAllowable, IsEnding, IsSpace, IsIpv4Segment, IsLetterOrDigit, Accepted;
    if k.state.path.PathDot? {
      PathDotOutcome(cfg, k, c);
    }
  }

  lemma ExtensionOutcome(cfg: Config, k: Core, c: char)
    requires CoreInv(cfg, k) && k.state.InExtension?
    ensures OutcomeInv(cfg, k, ExtensionStep(k, c))
  {
  }

  lemma PlainInv(cfg: Config, k: Core, c: char)
    requires CoreInv(cfg, k) && !Comparing(k.state)
    ensures CoreInv(cfg, PlainStep(cfg, k, c)) && !Comparing(PlainStep(cfg, k, c).state)
  {
    OutcomeHolds(cfg, k, c);
    match PlainOutcome(cfg, k, c)
    case Consume(n) =>
      if k.state.Lookup? || k.state.LookupWithoutFixed? {
        assert (k.buf + [c])[0] == c;
      } else {
        assert (k.buf + [c])[0] == k.buf[0];
      }
      var m := n.(buf := n.buf + [c]);
      assert BehindHost(m.state) ==> DomainAccepted(cfg, m);
    case Restart =>
    case Save(n) =>
      if SaveUrl(cfg, n).0 {
        SaveSplits(cfg, n);
        var m := SaveUrl(cfg, n).1;
        assert DomainAccepted(cfg, m) == DomainAccepted(cfg, n);
      }
    case Ignore(n) =>
  }

  lemma {:induction false} PlainFeedInv(cfg: Config, k: Core, s: string)
    requires CoreInv(cfg, k) && !Comparing(k.state)
    ensures CoreInv(cfg, PlainFeed(cfg, k, s)) && !Comparing(PlainFeed(cfg, k, s).state)
  {
    if s == "" {
    } else {
      PlainFeedInv(cfg, k, s[..|s| - 1]);
      PlainInv(cfg, PlainFeed(cfg, k, s[..|s| - 1]), s[|s| - 1]);
    }
  }

  /** What one character does to the buffer of a parser that has not reported yet. */
  predicate BufferStep(k: Core, n: Core, c: char) {
    if n.report.NoUrl? then
      (n.buf == "" || n.buf == k.buf + [c])
    else
      n.tail <= |k.buf| && n.buf == k.buf[..|k.buf| - n.tail] && n.buf != "" && n.report.found.original == n.buf
  }

  lemma PlainBuffer(cfg: Config, k: Core, c: char)
    requires CoreInv(cfg, k) && !Comparing(k.state) && k.report.NoUrl?
    ensures BufferStep(k, PlainStep(cfg, k, c), c)
    ensures var n := PlainStep(cfg, k, c);
      n.report.Reported? && n.report.found.kind in {Site, FtpSite, Image, Video} ==> DomainAccepted(cfg, n)
  {
    OutcomeHolds(cfg, k, c);
    match PlainOutcome(cfg, k, c)
    case Consume(n) =>
    case Restart =>
    case Save(n) =>
      if SaveUrl(cfg, n).0 {
        SaveSplits(cfg, n);
        SavedDomainAccepted(cfg, n);
      }
    case Ignore(n) =>
  }
}
