/** What a parser without fixed URLs knows of the host after reading the beginning of
    a fixed URL, told from the text alone, and when it would report a URL there. */
module UrlHosts {
  import opened UrlTypes
  import opened UrlMachine
  import opened UrlInvariant
  import opened UrlReplay
  import opened UrlRuns

  /** The last label read, the number of labels, and one more than the number of
      labels of one to three digits that a dot and another label followed. */
  datatype Domain = Domain(name: string, segments: int, ipv4: int)

  predicate InFirstLabel(ph: Phase) { ph.Start? || ph.Ws? || ph.First? }

  /** The end of a first label that is taken for a name (`FirstNameOf` tells which).
      Only its being a number of one to three digits matters. */
  function FirstName(cfg: Config, b: Core, first: string): string { PlainFeed(cfg, b, first).domain }

  function DomainAfter(cfg: Config, b: Core, v: string): Domain {
    if v == "" || InFirstLabel(PhaseAfter(cfg.tld, v)) then Domain(FirstName(cfg, b, v), 1, 1)
    else
      NextDomain(PhaseAfter(cfg.tld, v[..|v| - 1]), DomainAfter(cfg, b, v[..|v| - 1]), v[|v| - 1])
  }

  /** A character behind the first label. */
  function NextDomain(ph: Phase, d: Domain, c: char): Domain {
    match ph
    case Dot => Domain([c], d.segments + 1, d.ipv4 + if IsIpv4Segment(d.name) then 1 else 0)
    case Label(_) => if NameChar(c) then d.(name := d.name + [c]) else d
    case _ => d
  }

  /** A text that begins like a fixed URL is a URL by itself: a protocol stands before
      it, or it has two labels and the last one is accepted, by the list of top-level
      domains or because three numeric labels stand before it. */
  predicate Savable(cfg: Config, b: Core, v: string) {
    var ph, d := PhaseAfter(cfg.tld, v), DomainAfter(cfg, b, v);
    || !b.protocol.NoProtocol?
    || (!InFirstLabel(ph) && d.segments > 1 && Accepted(cfg, d.name, NoProtocol, d.segments, d.ipv4))
  }

  // ----- The plain parser knows exactly that -----

  /** What the plain parser `k` knows in phase `ph` of a text read from `b`. */
  predicate Known(ph: Phase, b: Core, k: Core, d: Domain) {
    && k.domain == d.name && k.segments == d.segments && k.ipv4 == d.ipv4
    && k.needDomain && k.hasPrefix == b.hasPrefix && k.idLength == b.idLength
    && (k.state.InProtocol? || k.state.InPrefix? ==> b.state.LookupWithoutFixed? && k.domain == "")
    && (!k.state.InProtocol? ==> k.protocol == b.protocol)
    && (b.state.Host? ==> k.domain != "")
    && (if ph.Label? || ph.Tail? then k.segments > 1 else k.segments >= 1)
    && (InFirstLabel(ph) ==> k.segments == 1 && k.ipv4 == 1)
  }

  lemma WwwKnown(k: Core, c: char)
    requires (k.state == InPrefix(Www2) || k.state == InPrefix(Www3) || k.state == InPrefix(Www4)) && NameChar(c)
    ensures var o := PrefixStep(k, c);
      o.Consume? && (o.next.state.InPrefix? || o.next.state.Host?) && o.next == k.(state := o.next.state)
  {
  }

  lemma StartKnown(cfg: Config, b: Core, c: char)
    requires BaseOk(cfg, b) && IsLetterOrDigit(c)
    ensures var k := PlainStep(cfg, b, c); Known(First, b, k, Domain(k.domain, 1, 1))
  {
    hide ProtocolNext;
    if b.state.Host? {
      HostKnown(b, c);
      assert "" + [c] == [c];
    }
  }

  predicate NameGrows(k: Core, n: Core, c: char) {
    if k.state.Host? then n.state.Host? && n.domain == k.domain + [c]
    else n.domain == k.domain + [c] || n.domain == ""
  }

  /** One more character of a first label, or the dot behind it. */
  lemma FirstKnown(cfg: Config, ph: Phase, b: Core, k: Core, c: char)
    requires BaseOk(cfg, b) && !ph.Start? && InFirstLabel(ph) && PhaseState(ph, b, k)
    requires Known(ph, b, k, Domain(k.domain, 1, 1)) && NextPhase(cfg.tld, ph, c) != Bad
    ensures var n := PlainStep(cfg, k, c);
      && Known(NextPhase(cfg.tld, ph, c), b, n, Domain(if c == '.' then k.domain else n.domain, 1, 1))
      && (c != '.' ==> NameGrows(k, n, c))
  {
    hide ProtocolNext, HostStep, PrefixStep, BaseOk, LookupStep, IdStep, HostNStep, HostPartStep, PathStep, SaveUrl;
    if k.state.Host? {
      HostKnown(k, c);
    } else if k.state.InProtocol? {
      ProtocolKnown(cfg, k.state.proto, k.protocol, c);
      HostKnown(k.(state := Host, protocol := NoProtocol), c);
      BaseWithoutProtocol(cfg, b);
    } else {
      WwwKnown(k, c);
    }
  }

  lemma BaseWithoutProtocol(cfg: Config, b: Core)
    requires BaseOk(cfg, b) && b.state.LookupWithoutFixed?
    ensures b.protocol.NoProtocol?
  {
  }

  /** One more character behind the first dot. */
  lemma LabelKnown(cfg: Config, ph: Phase, b: Core, k: Core, d: Domain, c: char)
    requires (ph.Dot? || ph.Label? || ph.Tail?) && PhaseState(ph, b, k) && Known(ph, b, k, d) && !k.isEmail
    requires NextPhase(cfg.tld, ph, c) != Bad
    ensures Known(NextPhase(cfg.tld, ph, c), b, PlainStep(cfg, k, c), NextDomain(ph, d, c))
  {
    hide IsIpv4Segment, IsAllowable, IsSpace, IsEnding, LookupStep, ProtocolStep, PrefixStep, HostStep, IdStep, SaveUrl;
    match ph
    case Dot => DotReplay(cfg, b, k, c);
    case Label(name) => LabelReplay(cfg, name, b, k, c);
    case Tail => TailReplay(cfg, b, k, c);
  }

  /** What the plain parser knows after reading `v` from `b`. */
  predicate KnownAfter(cfg: Config, b: Core, v: string) {
    Known(PhaseAfter(cfg.tld, v), b, PlainFeed(cfg, b, v), DomainAfter(cfg, b, v))
  }

  lemma {:induction false} ReplayKnows(cfg: Config, b: Core, v: string)
    requires BaseOk(cfg, b) && v != "" && PhaseAfter(cfg.tld, v) != Bad
    ensures KnownAfter(cfg, b, v)
  {
    hide KnownAfter, BaseOk, PhaseAfter, PhaseState;
    var u, c := v[..|v| - 1], v[|v| - 1];
    assert v == u + [c];
    if u == "" {
      assert v == [c];
      FirstLetterKnown(cfg, b, c);
    } else {
      PhaseOfPrefix(cfg.tld, v, |u|);
      Begun(cfg.tld, u);
      ReplayKeepsAll(cfg, b, u);
      ReplayKnows(cfg, b, u);
      if InFirstLabel(PhaseAfter(cfg.tld, u)) {
        KnownOnwards(cfg, b, u, c);
      } else {
        LabelOnwards(cfg, b, u, c);
      }
    }
  }

  lemma PhasesOnwards(tld: string -> bool, ph: Phase, c: char)
    requires ph != Bad && NextPhase(tld, ph, c) != Bad
    ensures InFirstLabel(NextPhase(tld, ph, c)) <==> InFirstLabel(ph) && c != '.'
    ensures !NextPhase(tld, ph, c).Start?
    ensures InFirstLabel(ph) && c == '.' ==> NextPhase(tld, ph, c).Dot?
  {
  }

  lemma Begun(tld: string -> bool, v: string)
    requires v != "" && PhaseAfter(tld, v) != Bad
    ensures !PhaseAfter(tld, v).Start?
  {
    hide NextPhase;
    PhaseOfPrefix(tld, v, |v| - 1);
    PhasesOnwards(tld, PhaseAfter(tld, v[..|v| - 1]), v[|v| - 1]);
  }

  lemma FirstLetterKnown(cfg: Config, b: Core, c: char)
    requires BaseOk(cfg, b) && PhaseAfter(cfg.tld, [c]) != Bad
    ensures KnownAfter(cfg, b, [c])
  {
    hide PlainStep, BaseOk, PlainFeed;
    assert [c][..0] == "" && PhaseAfter(cfg.tld, "") == Start;
    StartKnown(cfg, b, c);
    PlainFeedOne(cfg, b, c);
  }

  lemma KnownOnwards(cfg: Config, b: Core, u: string, c: char)
    requires BaseOk(cfg, b) && u != "" && InFirstLabel(PhaseAfter(cfg.tld, u)) && !PhaseAfter(cfg.tld, u).Start?
    requires PhaseState(PhaseAfter(cfg.tld, u), b, PlainFeed(cfg, b, u)) && KnownAfter(cfg, b, u)
    requires PhaseAfter(cfg.tld, u + [c]) != Bad
    ensures KnownAfter(cfg, b, u + [c])
  {
    hide NextPhase, BaseOk, PhaseState, PlainStep, PlainFeed;
    var k, ph := PlainFeed(cfg, b, u), PhaseAfter(cfg.tld, u);
    assert (u + [c])[..|u|] == u;
    PlainFeedSnoc(cfg, b, u, c);
    PhasesOnwards(cfg.tld, ph, c);
    FirstKnown(cfg, ph, b, k, c);
  }

  lemma LabelOnwards(cfg: Config, b: Core, u: string, c: char)
    requires u != "" && !InFirstLabel(PhaseAfter(cfg.tld, u))
    requires Replayed(PhaseAfter(cfg.tld, u), b, PlainFeed(cfg, b, u), u) && KnownAfter(cfg, b, u)
    requires PhaseAfter(cfg.tld, u + [c]) != Bad
    ensures KnownAfter(cfg, b, u + [c])
  {
    hide NextPhase, PhaseState, PlainStep, PlainFeed, NextDomain, Known;
    var k, ph := PlainFeed(cfg, b, u), PhaseAfter(cfg.tld, u);
    assert (u + [c])[..|u|] == u;
    PhaseOfPrefix(cfg.tld, u + [c], |u|);
    PlainFeedSnoc(cfg, b, u, c);
    PhasesOnwards(cfg.tld, ph, c);
    LabelKnown(cfg, ph, b, k, DomainAfter(cfg, b, u), c);
  }

  /** The plain parser saves the beginning of a fixed URL exactly when it is a URL by itself. */
  lemma SavedIffSavable(cfg: Config, b: Core, v: string)
    requires BaseOk(cfg, b) && v != "" && PhaseAfter(cfg.tld, v) != Bad
    ensures SaveUrl(cfg, PlainFeed(cfg, b, v)).0 <==> Savable(cfg, b, v)
  {
    hide PlainFeed, DomainAfter, NextPhase, PhaseAfter, MakeUrl, TailLength, IsIpv4Segment;
    ReplayKnows(cfg, b, v);
    ReplayKeepsAll(cfg, b, v);
    Begun(cfg.tld, v);
    if b.state.LookupWithoutFixed? {
      BaseWithoutProtocol(cfg, b);
    } else {
      assert b.state.Host?;
    }
  }

  /** A host behind a protocol starts with a name at once; elsewhere a label that
      begins with one of these letters is first tried as a protocol or as `www`. */
  predicate TriedAsPrefix(b: Core, first: string)
    requires first != ""
  {
    && b.state.LookupWithoutFixed?
    && (Is(first[0], 'w') || Is(first[0], 'h') || Is(first[0], 'f') || Is(first[0], 'i') || Is(first[0], 'm'))
  }

  /** The name is the end of the label and, unless the label was tried as a prefix, all of it. */
  predicate NamedBy(b: Core, v: string, k: Core)
    requires v != ""
  {
    && |k.domain| <= |v| && v[|v| - |k.domain|..] == k.domain
    && (!TriedAsPrefix(b, v) ==> k.domain == v && k.state.Host?)
  }

  lemma NamedSnoc(b: Core, u: string, k: Core, n: Core, c: char)
    requires u != "" && NamedBy(b, u, k) && NameGrows(k, n, c)
    ensures NamedBy(b, u + [c], n)
  {
    var v := u + [c];
    assert v[0] == u[0];
    assert v[|v| - |k.domain| - 1..] == u[|u| - |k.domain|..] + [c];
  }

  lemma {:induction false} FirstNameOf(cfg: Config, b: Core, v: string)
    requires BaseOk(cfg, b) && v != "" && PhaseAfter(cfg.tld, v) != Bad && InFirstLabel(PhaseAfter(cfg.tld, v))
    ensures NamedBy(b, v, PlainFeed(cfg, b, v))
  {
    hide NextPhase, BaseOk, PlainStep, PlainFeed, NamedBy, NameGrows;
    var u, c := v[..|v| - 1], v[|v| - 1];
    assert v == u + [c];
    if u == "" {
      assert v == [c];
      PlainFeedOne(cfg, b, c);
      FirstLetterNamed(cfg, b, c);
    } else {
      PhaseOfPrefix(cfg.tld, v, |u|);
      PhasesOnwards(cfg.tld, PhaseAfter(cfg.tld, u), c);
      FirstNameOf(cfg, b, u);
      NameOnwards(cfg, b, u, c);
      NamedSnoc(b, u, PlainFeed(cfg, b, u), PlainFeed(cfg, b, v), c);
    }
  }

  lemma NameOnwards(cfg: Config, b: Core, u: string, c: char)
    requires BaseOk(cfg, b) && u != "" && PhaseAfter(cfg.tld, u + [c]) != Bad && InFirstLabel(PhaseAfter(cfg.tld, u))
    requires c != '.'
    ensures NameGrows(PlainFeed(cfg, b, u), PlainFeed(cfg, b, u + [c]), c)
  {
    hide NextPhase, BaseOk, PhaseState, PlainStep, PlainFeed, NameGrows;
    assert (u + [c])[..|u|] == u;
    PhaseOfPrefix(cfg.tld, u + [c], |u|);
    Begun(cfg.tld, u);
    ReplayKeepsAll(cfg, b, u);
    ReplayKnows(cfg, b, u);
    PlainFeedSnoc(cfg, b, u, c);
    FirstKnown(cfg, PhaseAfter(cfg.tld, u), b, PlainFeed(cfg, b, u), c);
  }

  lemma FirstLetterRead(cfg: Config, b: Core, c: char)
    requires BaseOk(cfg, b) && PhaseAfter(cfg.tld, [c]) != Bad
    ensures var n := PlainStep(cfg, b, c);
      (n.domain == [c] || n.domain == "") && (!TriedAsPrefix(b, [c]) ==> n.domain == [c] && n.state.Host?)
  {
    hide ProtocolNext;
    assert [c][..0] == "" && PhaseAfter(cfg.tld, "") == Start;
    assert "" + [c] == [c];
    if b.state.Host? {
      HostKnown(b, c);
    }
  }

  lemma FirstLetterNamed(cfg: Config, b: Core, c: char)
    requires BaseOk(cfg, b) && PhaseAfter(cfg.tld, [c]) != Bad
    ensures NamedBy(b, [c], PlainStep(cfg, b, c))
  {
    hide PlainStep, BaseOk, TriedAsPrefix;
    FirstLetterRead(cfg, b, c);
  }
}
