/** Reading the scheme, the login and the host of a URL. */
module UrlReading {
  import opened UrlTypes
  import opened UrlMachine
  import opened UrlInvariant
  import opened UrlReplay
  import opened UrlRuns
  import opened UrlHosts
  import opened UrlShapes
  import opened UrlTexts
  import opened UrlPaths

  lemma {:induction false} PlainFeedConcat(cfg: Config, k: Core, a: string, b: string)
    ensures PlainFeed(cfg, k, a + b) == PlainFeed(cfg, PlainFeed(cfg, k, a), b)
  {
    hide PlainStep;
    if b == "" {
      assert a + b == a;
    } else {
      assert (a + b)[..|a| + |b| - 1] == a + b[..|b| - 1];
      PlainFeedConcat(cfg, k, a, b[..|b| - 1]);
    }
  }

  // ----- Schemes -----

  /** The states of the parser after the letters of a scheme. */
  function SchemeStates(p: Protocol): (s: seq<ProtocolState>)
    ensures |s| == |SchemeName(p)|
  {
    match p
    case NoProtocol => []
    case Http => [T1, T2, P, S]
    case Ftp => [T1, P, S]
    case Https => [T1, T2, P, S, DelimiterColon]
    case Ftps => [T1, P, S, DelimiterColon]
    case Icq => [T1, C, Q]
    case Agent => [T1, A, G, E, N, T]
    case Biz => [T1, Y, T, E, A, M, DelimiterDash, M1, E, S1, S1, E, N, G, E, R]
    case Dit => [T1, T2, D, DelimiterDash, M1, E, S1, S1, E, N, G, E, R]
  }

  /** The protocol that its first `n` letters suggest. */
  function Suggested(p: Protocol, n: nat): Protocol {
    match p
    case Https => if n < 5 then Http else Https
    case Ftps => if n < 4 then Ftp else Ftps
    case Biz => if n < 2 then Agent else Biz
    case Dit => if n < 4 then Icq else Dit
    case _ => p
  }

  predicate LetterRead(cfg: Config, p: Protocol, n: nat, c: char)
    requires 1 <= n < |SchemeName(p)|
  {
    ProtocolNext(cfg, SchemeStates(p)[n - 1], Suggested(p, n), c)
      == Advance(InProtocol(SchemeStates(p)[n]), Suggested(p, n + 1))
  }

  lemma WebLetter(cfg: Config, p: Protocol, n: nat, c: char)
    requires p.Http? || p.Ftp? || p.Https? || p.Ftps?
    requires 1 <= n < |SchemeName(p)| && LowerCase(c) == SchemeName(p)[n] && Spoken(cfg, p)
    ensures LetterRead(cfg, p, n, c)
  {
    hide LowerCase, Is;
    LowerAgrees(c);
  }

  lemma AgentLetter(cfg: Config, p: Protocol, n: nat, c: char)
    requires p.Icq? || p.Agent?
    requires 1 <= n < |SchemeName(p)| && LowerCase(c) == SchemeName(p)[n] && Spoken(cfg, p)
    ensures LetterRead(cfg, p, n, c)
  {
    hide LowerCase, Is;
    LowerAgrees(c);
  }

  lemma BizLetter(cfg: Config, p: Protocol, n: nat, c: char)
    requires p.Biz? && n < 8
    requires 1 <= n < |SchemeName(p)| && LowerCase(c) == SchemeName(p)[n] && Spoken(cfg, p)
    ensures LetterRead(cfg, p, n, c)
  {
    hide LowerCase, Is;
    LowerAgrees(c);
  }

  lemma BizLetterLater(cfg: Config, p: Protocol, n: nat, c: char)
    requires p.Biz? && n >= 8
    requires 1 <= n < |SchemeName(p)| && LowerCase(c) == SchemeName(p)[n] && Spoken(cfg, p)
    ensures LetterRead(cfg, p, n, c)
  {
    hide LowerCase, Is;
    LowerAgrees(c);
  }

  lemma DitLetter(cfg: Config, p: Protocol, n: nat, c: char)
    requires p.Dit? && n < 6
    requires 1 <= n < |SchemeName(p)| && LowerCase(c) == SchemeName(p)[n] && Spoken(cfg, p)
    ensures LetterRead(cfg, p, n, c)
  {
    hide LowerCase, Is;
    LowerAgrees(c);
  }

  lemma DitLetterLater(cfg: Config, p: Protocol, n: nat, c: char)
    requires p.Dit? && n >= 6
    requires 1 <= n < |SchemeName(p)| && LowerCase(c) == SchemeName(p)[n] && Spoken(cfg, p)
    ensures LetterRead(cfg, p, n, c)
  {
    hide LowerCase, Is;
    LowerAgrees(c);
  }

  lemma SchemeLetter(cfg: Config, p: Protocol, n: nat, c: char)
    requires 1 <= n < |SchemeName(p)| && LowerCase(c) == SchemeName(p)[n] && Spoken(cfg, p)
    ensures LetterRead(cfg, p, n, c)
  {
    hide LetterRead, LowerCase;
    match p
    case NoProtocol =>
    case Icq => AgentLetter(cfg, p, n, c);
    case Agent => AgentLetter(cfg, p, n, c);
    case Biz => if n < 8 { BizLetter(cfg, p, n, c); } else { BizLetterLater(cfg, p, n, c); }
    case Dit => if n < 6 { DitLetter(cfg, p, n, c); } else { DitLetterLater(cfg, p, n, c); }
    case _ => WebLetter(cfg, p, n, c);
  }

  lemma SchemeFirst(cfg: Config, p: Protocol, c: char)
    requires !p.NoProtocol? && LowerCase(c) == SchemeName(p)[0]
    ensures PlainStep(cfg, Fresh(), c) == Fresh().(state := InProtocol(T1), protocol := Suggested(p, 1), buf := [c])
    ensures SchemeStates(p)[0] == T1
  {
    assert "" + [c] == [c];
  }

  lemma SchemeColon(cfg: Config, p: Protocol)
    requires !p.NoProtocol?
    ensures var n := |SchemeName(p)|;
      ProtocolNext(cfg, SchemeStates(p)[n - 1], Suggested(p, n), ':') == Advance(InPrefix(DelimiterSlash1), p)
  {
  }

  /** After the scheme and "://". */
  function Schemed(p: Protocol, text: string): Core {
    Fresh().(state := InPrefix(CheckWww), protocol := p, hasPrefix := true, buf := text)
  }

  lemma {:induction false} SchemeLettersRead(cfg: Config, p: Protocol, s: string, n: nat)
    requires !p.NoProtocol? && Spells(s, SchemeName(p)) && Spoken(cfg, p) && 1 <= n <= |s|
    ensures PlainFeed(cfg, Fresh(), s[..n])
      == Fresh().(state := InProtocol(SchemeStates(p)[n - 1]), protocol := Suggested(p, n), buf := s[..n])
  {
    hide PlainStep, SchemeName, SchemeStates, Suggested, Spoken, LowerCase;
    var c := s[n - 1];
    if n == 1 {
      SchemeFirst(cfg, p, c);
      PlainFeedOne(cfg, Fresh(), c);
      assert s[..1] == [c];
    } else {
      SchemeLettersRead(cfg, p, s, n - 1);
      SchemeLetter(cfg, p, n - 1, c);
      assert s[..n] == s[..n - 1] + [c];
      PlainFeedSnoc(cfg, Fresh(), s[..n - 1], c);
      var k := Fresh().(state := InProtocol(SchemeStates(p)[n - 2]), protocol := Suggested(p, n - 1),
                        buf := s[..n - 1]);
      ProtocolAdvances(cfg, k, c, InProtocol(SchemeStates(p)[n - 1]), Suggested(p, n));
    }
  }

  lemma ProtocolAdvances(cfg: Config, k: Core, c: char, to: State, next: Protocol)
    requires k.state.InProtocol? && ProtocolNext(cfg, k.state.proto, k.protocol, c) == Advance(to, next)
    ensures PlainStep(cfg, k, c) == k.(state := to, protocol := next, buf := k.buf + [c])
  {
    hide ProtocolNext;
  }

  lemma SchemeColonRead(cfg: Config, p: Protocol, s: string)
    requires !p.NoProtocol? && Spells(s, SchemeName(p)) && Spoken(cfg, p)
    ensures PlainFeed(cfg, Fresh(), s + ":")
      == Fresh().(state := InPrefix(DelimiterSlash1), protocol := p, buf := s + ":")
  {
    hide PlainFeed, PlainStep, SchemeStates, Suggested, Spoken, LowerCase;
    assert |SchemeName(p)| > 0;
    SchemeLettersRead(cfg, p, s, |s|);
    assert s[..|s|] == s && s + [':'] == s + ":";
    SchemeColon(cfg, p);
    var k := Fresh().(state := InProtocol(SchemeStates(p)[|s| - 1]), protocol := Suggested(p, |s|), buf := s);
    ProtocolAdvances(cfg, k, ':', InPrefix(DelimiterSlash1), p);
    PlainFeedSnoc(cfg, Fresh(), s, ':');
  }

  lemma SchemeRead(cfg: Config, p: Protocol, s: string)
    requires !p.NoProtocol? && Spells(s, SchemeName(p)) && Spoken(cfg, p)
    ensures PlainFeed(cfg, Fresh(), s + "://") == Schemed(p, s + "://")
  {
    hide PlainFeed, PlainStep, Spoken, Spells;
    var t := s + ":";
    SchemeColonRead(cfg, p, s);
    assert t + ['/'] + ['/'] == s + "://";
    PlainFeedSnoc(cfg, Fresh(), t, '/');
    PlainFeedSnoc(cfg, Fresh(), t + ['/'], '/');
    SlashesRead(cfg, p, t);
  }

  lemma OneSlash(cfg: Config, k: Core)
    requires k.state == InPrefix(DelimiterSlash1)
    ensures PlainStep(cfg, k, '/') == k.(state := InPrefix(DelimiterSlash2), buf := k.buf + ['/'])
  {
    hide ProtocolStep, HostStep, HostNStep, HostPartStep, PathStep, ExtensionStep, IdStep, SaveUrl;
  }

  lemma SlashesRead(cfg: Config, p: Protocol, text: string)
    ensures var k := Fresh().(state := InPrefix(DelimiterSlash1), protocol := p, buf := text);
      PlainStep(cfg, PlainStep(cfg, k, '/'), '/') == Schemed(p, text + ['/'] + ['/'])
  {
    hide ProtocolStep, HostNStep, HostPartStep, PathStep, ExtensionStep, IdStep, SaveUrl;
  }

  // ----- Labels -----

  lemma LabelChar(c: char)
    requires Letter(c) || Digit(c) || c == '-'
    ensures NameChar(c) && IsAllowable(c) && c != '.' && c != ':' && c != '@' && c != '/' && c != '?' && c != '#'
    ensures !IsSpace(c) && !IsEnding(c)
    ensures c != '-' ==> IsLetterOrDigit(c)
  {
  }

  predicate LabelChars(s: string) { forall i :: 0 <= i < |s| ==> Letter(s[i]) || Digit(s[i]) || s[i] == '-' }

  lemma HostChar(cfg: Config, k: Core, c: char)
    requires k.state.Host? && (Letter(c) || Digit(c) || c == '-')
    ensures PlainStep(cfg, k, c) == k.(domain := k.domain + [c], buf := k.buf + [c])
  {
    hide ProtocolStep, HostNStep, HostPartStep, PathStep, ExtensionStep, IdStep, SaveUrl;
    hide PrefixStep, IsAllowable, Letter, Digit;
    LabelChar(c);
  }

  lemma {:induction false} HostChars(cfg: Config, k: Core, s: string)
    requires k.state.Host? && LabelChars(s)
    ensures PlainFeed(cfg, k, s) == k.(domain := k.domain + s, buf := k.buf + s)
  {
    hide PlainStep, Letter, Digit;
    if s == "" {
      assert k.domain + s == k.domain && k.buf + s == k.buf;
    } else {
      var u, c := s[..|s| - 1], s[|s| - 1];
      HostChars(cfg, k, u);
      HostChar(cfg, PlainFeed(cfg, k, u), c);
      assert k.domain + s == (k.domain + u) + [c] && k.buf + s == (k.buf + u) + [c];
    }
  }

  lemma LaterChar(cfg: Config, k: Core, c: char)
    requires k.state.HostN? && (Letter(c) || Digit(c) || c == '-')
    ensures PlainStep(cfg, k, c) == k.(domain := k.domain + [c], buf := k.buf + [c])
  {
    hide ProtocolStep, HostStep, HostPartStep, PathStep, ExtensionStep, IdStep, SaveUrl;
    hide PrefixStep, IsAllowable, Letter, Digit;
    hide IsEnding, IsSpace, Accepted;
    LabelChar(c);
  }

  function DotCounted(k: Core): int { k.ipv4 + if IsIpv4Segment(k.domain) then 1 else 0 }

  /** A later label, read behind its dot. */
  lemma {:induction false} LaterLabel(cfg: Config, k: Core, l: string)
    requires k.state == InHost(HostDot) && LabelText(l)
    ensures PlainFeed(cfg, k, l)
      == k.(state := HostN, domain := l, segments := k.segments + 1, ipv4 := DotCounted(k), buf := k.buf + l)
  {
    hide PlainStep, Letter, Digit, IsIpv4Segment;
    var u, c := l[..|l| - 1], l[|l| - 1];
    if u == "" {
      assert l == [c];
      FirstOfLabel(cfg, k, c);
      PlainFeedOne(cfg, k, c);
    } else {
      LaterLabel(cfg, k, u);
      LaterChar(cfg, PlainFeed(cfg, k, u), c);
      assert u + [c] == l && k.buf + l == (k.buf + u) + [c];
    }
  }

  lemma FirstOfLabel(cfg: Config, k: Core, c: char)
    requires k.state == InHost(HostDot) && (Letter(c) || Digit(c))
    ensures PlainStep(cfg, k, c)
      == k.(state := HostN, domain := [c], segments := k.segments + 1, ipv4 := DotCounted(k), buf := k.buf + [c])
  {
    hide ProtocolStep, HostStep, HostNStep, PathStep, ExtensionStep, IdStep, SaveUrl;
    hide PrefixStep, IsAllowable, Letter, Digit;
    hide IsIpv4Segment, Accepted;
    CharactersAgree(c);
  }

  lemma DotRead(cfg: Config, k: Core)
    requires k.state.Host? || k.state.HostN?
    ensures PlainStep(cfg, k, '.') == k.(state := InHost(HostDot), buf := k.buf + ['.'])
  {
    hide ProtocolStep, HostPartStep, PathStep, ExtensionStep, IdStep, SaveUrl, PrefixStep, Accepted;
  }

  /** The numbers among the labels before the last one, behind a first name. */
  function Numbers(first: string, labels: seq<string>): nat {
    if labels == [] then 0
    else
      var n := |labels| - 1;
      Numbers(first, labels[..n]) + if IsIpv4Segment(if n == 0 then first else labels[n - 1]) then 1 else 0
  }

  /** The labels behind the first dot. */
  function Joined(labels: seq<string>): string
    requires labels != []
  {
    var n := |labels| - 1;
    if n == 0 then labels[0] else Joined(labels[..n]) + ("." + labels[n])
  }

  lemma {:induction false} JoinedText(labels: seq<string>)
    requires labels != []
    ensures LabelsText(labels) == "." + Joined(labels)
  {
    var n := |labels| - 1;
    if n == 0 {
      assert LabelsText(labels[..0]) == "";
    } else {
      JoinedText(labels[..n]);
    }
  }

  /** The core behind the labels. */
  function Labelled(k: Core, labels: seq<string>): Core
    requires labels != []
  {
    k.(state := HostN, domain := labels[|labels| - 1], segments := k.segments + |labels|,
       ipv4 := k.ipv4 + Numbers(k.domain, labels), buf := k.buf + Joined(labels))
  }

  lemma LabelledSnoc(k: Core, labels: seq<string>)
    requires |labels| > 1
    ensures var n := |labels| - 1; var m := Labelled(k, labels[..n]);
      Labelled(k, labels)
        == m.(domain := labels[n], segments := m.segments + 1, ipv4 := DotCounted(m), buf := m.buf + ("." + labels[n]))
  {
    hide IsIpv4Segment;
    var n := |labels| - 1;
    assert (k.buf + Joined(labels[..n])) + ("." + labels[n]) == k.buf + Joined(labels);
  }

  /** All later labels with their dots, behind the first one and its dot. */
  lemma {:induction false} LaterLabels(cfg: Config, k: Core, labels: seq<string>)
    requires k.state == InHost(HostDot) && labels != [] && forall i :: 0 <= i < |labels| ==> LabelText(labels[i])
    ensures PlainFeed(cfg, k, Joined(labels)) == Labelled(k, labels)
  {
    hide PlainStep, PlainFeed, LabelText, Labelled;
    var n := |labels| - 1;
    if n == 0 {
      LaterLabel(cfg, k, labels[0]);
      OneLabelled(k, labels);
    } else {
      LaterLabels(cfg, k, labels[..n]);
      PlainFeedConcat(cfg, k, Joined(labels[..n]), "." + labels[n]);
      LabelledState(k, labels[..n]);
      DotAndLabel(cfg, Labelled(k, labels[..n]), labels[n]);
      LabelledSnoc(k, labels);
    }
  }

  lemma LabelledState(k: Core, labels: seq<string>)
    requires labels != []
    ensures Labelled(k, labels).state.HostN?
  {
  }

  lemma OneLabelled(k: Core, labels: seq<string>)
    requires |labels| == 1
    ensures Labelled(k, labels)
      == k.(state := HostN, domain := labels[0], segments := k.segments + 1, ipv4 := DotCounted(k),
            buf := k.buf + labels[0])
  {
    hide IsIpv4Segment;
    assert Numbers(k.domain, labels[..0]) == 0;
  }

  lemma DotAndLabel(cfg: Config, k: Core, l: string)
    requires k.state.HostN? && LabelText(l)
    ensures PlainFeed(cfg, k, "." + l)
      == k.(domain := l, segments := k.segments + 1, ipv4 := DotCounted(k), buf := k.buf + ("." + l))
  {
    hide PlainStep, IsIpv4Segment, PlainFeed;
    PlainFeedConcat(cfg, k, ".", l);
    assert ['.'] == ".";
    PlainFeedOne(cfg, k, '.');
    DotRead(cfg, k);
    LaterLabel(cfg, PlainStep(cfg, k, '.'), l);
    assert (k.buf + ['.']) + l == k.buf + ("." + l);
  }

  // ----- The first label -----

  /** The state after a label that begins with `w`. */
  function WwwState(v: string): State {
    if !Www(v) then Host else if |v| == 1 then InPrefix(Www2) else if |v| == 2 then InPrefix(Www3) else InPrefix(Www4)
  }

  lemma WwwFirst(cfg: Config, k: Core, c: char)
    requires (k.state.Lookup? || k.state == InPrefix(CheckWww)) && LowerCase(c) == 'w'
    ensures PlainStep(cfg, k, c) == k.(state := InPrefix(Www2), buf := k.buf + [c]) && Www([c])
  {
    hide ProtocolStep, HostStep, HostNStep, HostPartStep, PathStep, ExtensionStep, IdStep, SaveUrl, IsAllowable;
  }

  lemma WwwSnoc(u: string, c: char)
    ensures u != "" ==> (Www(u + [c]) <==> Www(u) && |u| < 3 && LowerCase(c) == 'w')
  {
    hide LowerCase;
    assert forall i :: 0 <= i < |u| ==> (u + [c])[i] == u[i];
    assert (u + [c])[|u|] == c;
  }

  lemma WwwStep(cfg: Config, k: Core, c: char)
    requires k.state == InPrefix(Www2) || k.state == InPrefix(Www3) || k.state == InPrefix(Www4)
    requires Letter(c) || Digit(c) || c == '-'
    ensures PlainStep(cfg, k, c) ==
      k.(state := if k.state == InPrefix(Www4) || LowerCase(c) != 'w' then Host
                  else InPrefix(if k.state.prefix.Www2? then Www3 else Www4), buf := k.buf + [c])
  {
    hide ProtocolStep, HostStep, HostNStep, HostPartStep, PathStep, ExtensionStep, IdStep, SaveUrl, IsAllowable;
    LabelChar(c);
  }

  lemma WwwNext(cfg: Config, k: Core, u: string, c: char)
    requires k.state == WwwState(u) && u != "" && (Letter(c) || Digit(c) || c == '-')
    ensures var n := PlainStep(cfg, k, c);
      n.state == WwwState(u + [c]) && n == k.(state := n.state, domain := n.domain, buf := k.buf + [c])
  {
    hide PlainStep, LowerCase, Letter, Digit;
    WwwSnoc(u, c);
    if k.state.Host? {
      HostChar(cfg, k, c);
    } else {
      WwwStep(cfg, k, c);
    }
  }

  lemma {:induction false} WwwLabel(cfg: Config, k: Core, v: string)
    requires (k.state.Lookup? || k.state == InPrefix(CheckWww)) && v != "" && LabelChars(v) && LowerCase(v[0]) == 'w'
    ensures var n := PlainFeed(cfg, k, v);
      n.state == WwwState(v) && n == k.(state := n.state, domain := n.domain, buf := k.buf + v)
  {
    hide PlainStep, WwwState, Letter, Digit;
    var u, c := v[..|v| - 1], v[|v| - 1];
    if u == "" {
      assert v == [c];
      WwwFirst(cfg, k, c);
      OneW(c);
      PlainFeedOne(cfg, k, c);
    } else {
      WwwLabel(cfg, k, u);
      WwwNext(cfg, PlainFeed(cfg, k, u), u, c);
      assert u + [c] == v && k.buf + v == (k.buf + u) + [c];
    }
  }

  lemma OneW(c: char)
    requires Www([c])
    ensures WwwState([c]) == InPrefix(Www2)
  {
  }

  lemma NamedFirst(cfg: Config, k: Core, c: char)
    requires k.state == InPrefix(CheckFilesharing) || (k.state == InPrefix(CheckWww) && LowerCase(c) != 'w')
    requires Letter(c) || Digit(c)
    ensures PlainStep(cfg, k, c) == k.(state := Host, domain := k.domain + [c], buf := k.buf + [c])
  {
    hide ProtocolStep, HostNStep, HostPartStep, PathStep, ExtensionStep, IdStep, SaveUrl, IsAllowable;
    LabelChar(c);
  }

  /** A label in the host state, or behind a scheme, or behind `www.`. */
  lemma HostLabel(cfg: Config, k: Core, v: string)
    requires LabelText(v)
    requires k.state.Host? || k.state == InPrefix(CheckFilesharing) || (k.state == InPrefix(CheckWww) && !Www(v))
    ensures var n := PlainFeed(cfg, k, v);
      && n == k.(state := Host, domain := n.domain, buf := k.buf + v)
      && (Digit(v[0]) ==> n.domain == k.domain + v)
  {
    hide PlainStep, PlainFeed, Letter, Digit;
    if k.state.Host? {
      HostChars(cfg, k, v);
    } else if k.state == InPrefix(CheckWww) && LowerCase(v[0]) == 'w' {
      WwwLabel(cfg, k, v);
      DigitIsNoW(v[0]);
    } else {
      var c, rest := v[0], v[1..];
      assert v == [c] + rest;
      NamedFirst(cfg, k, c);
      PlainFeedOne(cfg, k, c);
      PlainFeedConcat(cfg, k, [c], rest);
      HostChars(cfg, PlainStep(cfg, k, c), rest);
      assert k.buf + v == (k.buf + [c]) + rest && k.domain + v == (k.domain + [c]) + rest;
    }
  }

  lemma DigitIsNoW(c: char)
    requires LowerCase(c) == 'w'
    ensures !Digit(c)
  {
  }

  /** What the words of the two texts mean to the phases of a fixed URL. */
  lemma LabelIsLabel(v: string)
    requires LabelText(v)
    ensures IsLabel(v) && (IsWww(v) <==> Www(v))
  {
    forall i | 0 <= i < |v|
      ensures NameChar(v[i])
    {
      LabelChar(v[i]);
    }
    CharactersAgree(v[0]);
    forall i | 0 <= i < |v|
      ensures Is(v[i], 'w') <==> LowerCase(v[i]) == 'w'
    {
      CharactersAgree(v[i]);
    }
  }

  /** A label at the beginning of a text and its dot: letters tried as a protocol are given up there. */
  lemma BareFirst(cfg: Config, first: string)
    requires LabelText(first) && !Www(first)
    ensures var n := PlainFeed(cfg, Fresh(), first + ".");
      && n == Fresh().(state := InHost(HostDot), domain := n.domain, buf := first + ".")
      && (Digit(first[0]) ==> n.domain == first)
  {
    hide PlainStep, PlainFeed, NextPhase, LabelText, IsLabel, IsWww, Www, DomainAfter;
    var b, v := Fresh().(state := LookupWithoutFixed), first + ".";
    LabelIsLabel(first);
    FirstNames(cfg.tld, first);
    PhaseSnoc(cfg.tld, first, '.');
    assert first + ['.'] == v;
    FirstThenDot(cfg.tld);
    LabelStarts(first);
    SameFromLookup(cfg, v);
    ReplayKeepsAll(cfg, b, v);
    ReplayKnows(cfg, b, v);
    PlainFeedInv(cfg, b, v);
    assert "" + v == v;
    BareKnown(cfg, first, PlainFeed(cfg, b, v));
  }

  lemma LabelStarts(v: string)
    requires LabelText(v)
    ensures v != "" && (Letter(v[0]) || Digit(v[0]))
  {
  }

  lemma FirstThenDot(tld: string -> bool)
    ensures NextPhase(tld, First, '.') == Dot
  {
  }

  lemma {:induction false} SameFromLookup(cfg: Config, v: string)
    requires v != "" && (Letter(v[0]) || Digit(v[0]))
    ensures PlainFeed(cfg, Fresh().(state := LookupWithoutFixed), v) == PlainFeed(cfg, Fresh(), v)
  {
    hide PlainStep;
    var u := v[..|v| - 1];
    if u == "" {
      CharactersAgree(v[0]);
      FallbackStateIsAlike(cfg, Fresh(), v[0]);
    } else {
      SameFromLookup(cfg, u);
    }
  }

  lemma BareKnown(cfg: Config, first: string, n: Core)
    requires var b, v := Fresh().(state := LookupWithoutFixed), first + ".";
      && LabelText(first) && PhaseAfter(cfg.tld, first) == First && PhaseAfter(cfg.tld, v) == Dot
      && n == PlainFeed(cfg, b, v) && Replayed(Dot, b, n, v)
      && Known(Dot, b, n, DomainAfter(cfg, b, v)) && CoreInv(cfg, n)
    ensures n == Fresh().(state := InHost(HostDot), domain := n.domain, buf := first + ".")
    ensures Digit(first[0]) ==> n.domain == first
  {
    hide PlainStep, PlainFeed, NextPhase, PhaseAfter, DomainAfter, LabelText;
    BareDomain(cfg, first);
  }

  /** What a first label counts for: one segment, and its name if it begins with a digit. */
  lemma BareDomain(cfg: Config, first: string)
    requires LabelText(first) && PhaseAfter(cfg.tld, first) == First && PhaseAfter(cfg.tld, first + ".") == Dot
    ensures var d := DomainAfter(cfg, Fresh().(state := LookupWithoutFixed), first + ".");
      d.segments == 1 && d.ipv4 == 1 && (Digit(first[0]) ==> d.name == first)
  {
    hide PlainStep, PlainFeed, NextPhase, PhaseAfter, BaseOk;
    var b, v := Fresh().(state := LookupWithoutFixed), first + ".";
    assert v[..|first|] == first && v[|first|] == '.';
    BareBase(cfg);
    assert DomainAfter(cfg, b, v) == NextDomain(First, DomainAfter(cfg, b, first), '.');
    assert DomainAfter(cfg, b, first) == Domain(FirstName(cfg, b, first), 1, 1);
    FirstNameOf(cfg, b, first);
  }

  lemma BareBase(cfg: Config)
    ensures BaseOk(cfg, Fresh().(state := LookupWithoutFixed))
  {
  }

  // ----- `www.` and a login -----

  lemma WwwDot(cfg: Config, k: Core)
    requires k.state == InPrefix(Www4)
    ensures PlainStep(cfg, k, '.') == k.(state := InPrefix(CheckFilesharing), buf := k.buf + ['.'])
  {
    hide ProtocolStep, HostStep, HostNStep, HostPartStep, PathStep, ExtensionStep, IdStep, SaveUrl, IsAllowable;
  }

  lemma WwwW(cfg: Config, k: Core, c: char)
    requires (k.state == InPrefix(Www2) || k.state == InPrefix(Www3)) && LowerCase(c) == 'w'
    ensures PlainStep(cfg, k, c)
      == k.(state := InPrefix(if k.state.prefix.Www2? then Www3 else Www4), buf := k.buf + [c])
  {
    hide ProtocolStep, HostStep, HostNStep, HostPartStep, PathStep, ExtensionStep, IdStep, SaveUrl, IsAllowable;
  }

  lemma WwwRead(cfg: Config, k: Core, www: string)
    requires (k.state.Lookup? || k.state == InPrefix(CheckWww)) && Spells(www, "www.")
    ensures PlainFeed(cfg, k, www) == k.(state := InPrefix(CheckFilesharing), buf := k.buf + www)
  {
    hide PlainStep, PlainFeed, LowerCase;
    var a, b, c := [www[0]], [www[0]] + [www[1]], [www[0]] + [www[1]] + [www[2]];
    WwwFirst(cfg, k, www[0]);
    PlainFeedOne(cfg, k, www[0]);
    PlainFeedSnoc(cfg, k, a, www[1]);
    PlainFeedSnoc(cfg, k, b, www[2]);
    PlainFeedSnoc(cfg, k, c, www[3]);
    LowerDot(www[3]);
    assert www == c + ['.'];
    var k1 := PlainStep(cfg, k, www[0]);
    WwwW(cfg, k1, www[1]);
    var k2 := PlainStep(cfg, k1, www[1]);
    WwwW(cfg, k2, www[2]);
    WwwDot(cfg, PlainStep(cfg, k2, www[2]));
    assert k.buf + [www[0]] + [www[1]] + [www[2]] + ['.'] == k.buf + www;
  }

  lemma LowerDot(c: char)
    requires LowerCase(c) == '.'
    ensures c == '.'
  {
  }

  lemma PartStep(cfg: Config, k: Core, c: char)
    requires k.state.InHost? || k.state.Host?
    ensures PlainStep(cfg, k, c) == Resolve(cfg, if k.state.Host? then HostStep(k, c) else HostPartStep(cfg, k, c), c)
  {
    hide HostStep, HostPartStep, Resolve;
  }

  lemma PasswordChar(cfg: Config, k: Core, c: char)
    requires UrlChar(c) && c != '@'
    requires k.state == InHost(Password) || (k.state == InHost(HostColon) && !Digit(c))
    ensures PlainStep(cfg, k, c) == k.(state := InHost(Password), buf := k.buf + [c])
  {
    hide HostStep, IsAllowable, UrlChar;
    PartStep(cfg, k, c);
    CharactersAgree(c);
  }

  lemma PortChar(cfg: Config, k: Core, c: char)
    requires Digit(c) && (k.state == InHost(Port) || k.state == InHost(HostColon))
    ensures PlainStep(cfg, k, c) == k.(state := InHost(Port), buf := k.buf + [c])
  {
    hide HostStep, IsAllowable;
    PartStep(cfg, k, c);
  }

  lemma PortBecomesPassword(cfg: Config, k: Core, c: char)
    requires k.state == InHost(Port) && UrlChar(c) && !Digit(c) && c != '@' && c != '/'
    ensures PlainStep(cfg, k, c) == k.(state := InHost(Password), buf := k.buf + [c])
  {
    hide HostStep, IsAllowable, UrlChar, Accepted;
    PartStep(cfg, k, c);
    CharactersAgree(c);
  }

  function PasswordState(s: string): State { InHost(if AllDigits(s) then Port else Password) }

  lemma PasswordSnoc(u: string, c: char)
    requires PasswordText(u + [c])
    ensures PasswordText(u) && UrlChar(c) && c != '@' && (AllDigits(u) && u != "" ==> c != '/')
    ensures AllDigits(u + [c]) <==> AllDigits(u) && Digit(c)
  {
    hide UrlChar, Digit;
    var s := u + [c];
    assert s[|u|] == c && s[..|u|] == u && forall i :: 0 <= i < |u| ==> s[i] == u[i];
    assert forall i :: 0 <= i <= |u| ==> s[..i] == u[..i];
  }

  lemma {:induction false} PasswordRead(cfg: Config, k: Core, s: string)
    requires k.state == InHost(HostColon) && s != "" && PasswordText(s)
    ensures PlainFeed(cfg, k, s) == k.(state := PasswordState(s), buf := k.buf + s)
  {
    hide PlainStep, UrlChar, Digit, PasswordText, AllDigits;
    var u, c := s[..|s| - 1], s[|s| - 1];
    assert u + [c] == s;
    PasswordSnoc(u, c);
    if u == "" {
      assert s == [c] && AllDigits("") by { NoDigits(); }
      PlainFeedOne(cfg, k, c);
      if Digit(c) {
        PortChar(cfg, k, c);
      } else {
        PasswordChar(cfg, k, c);
      }
    } else {
      PasswordRead(cfg, k, u);
      if !AllDigits(u) {
        PasswordChar(cfg, PlainFeed(cfg, k, u), c);
      } else if Digit(c) {
        PortChar(cfg, PlainFeed(cfg, k, u), c);
      } else {
        PortBecomesPassword(cfg, PlainFeed(cfg, k, u), c);
      }
      assert k.buf + s == (k.buf + u) + [c];
    }
  }

  lemma NoDigits()
    ensures AllDigits("")
  {
  }

  lemma {:induction false} PortRead(cfg: Config, k: Core, s: string)
    requires k.state == InHost(HostColon) && s != "" && AllDigits(s)
    ensures PlainFeed(cfg, k, s) == k.(state := InHost(Port), buf := k.buf + s)
  {
    hide PlainStep, Digit;
    var u, c := s[..|s| - 1], s[|s| - 1];
    if u == "" {
      assert s == [c];
      PlainFeedOne(cfg, k, c);
      PortChar(cfg, k, c);
    } else {
      PortRead(cfg, k, u);
      PortChar(cfg, PlainFeed(cfg, k, u), c);
      assert k.buf + s == (k.buf + u) + [c];
    }
  }

  lemma HostSigns(cfg: Config, k: Core)
    ensures k.state.Host? ==> PlainStep(cfg, k, ':') == k.(state := InHost(HostColon), buf := k.buf + [':'])
    ensures k.state == InHost(Password) || k.state == InHost(Port) ==>
      PlainStep(cfg, k, '@') == k.(state := Host, buf := k.buf + ['@'])
  {
    hide IsAllowable;
    if k.state.InHost? || k.state.Host? {
      PartStep(cfg, k, ':');
      PartStep(cfg, k, '@');
    }
  }

  lemma HostToAt(cfg: Config, k: Core)
    requires k.state.Host?
    ensures PlainStep(cfg, k, '@') == k.(state := InHost(HostAt), buf := k.buf + ['@'])
  {
    hide IsAllowable;
    PartStep(cfg, k, '@');
  }

  lemma PasswordLogin(cfg: Config, h: Core, s: string)
    requires h.state.Host? && s != "" && PasswordText(s)
    ensures PlainFeed(cfg, h, ":" + s + "@") == h.(state := Host, buf := h.buf + (":" + s + "@"))
  {
    hide PlainStep, PlainFeed, PasswordText, AllDigits;
    assert [':'] == ":" && (":" + s) + ['@'] == ":" + s + "@";
    PlainFeedOne(cfg, h, ':');
    HostSigns(cfg, h);
    PlainFeedConcat(cfg, h, ":", s);
    PasswordRead(cfg, PlainFeed(cfg, h, ":"), s);
    PlainFeedSnoc(cfg, h, ":" + s, '@');
    HostSigns(cfg, PlainFeed(cfg, h, ":" + s));
    assert ((h.buf + [':']) + s) + ['@'] == h.buf + (":" + s + "@");
  }

  /** A login behind a scheme: without a password the sign is still to be left behind. */
  lemma LoginRead(cfg: Config, k: Core, l: Login)
    requires k.state == InPrefix(CheckWww) && l.Login? && LabelText(l.user) && !Www(l.user) && PasswordText(l.password)
    ensures var n := PlainFeed(cfg, k, LoginText(l));
      n == k.(state := if l.password == "" then InHost(HostAt) else Host, domain := n.domain,
              buf := k.buf + LoginText(l))
  {
    hide PlainStep, PlainFeed, LabelText, Www, PasswordText;
    HostLabel(cfg, k, l.user);
    var h := PlainFeed(cfg, k, l.user);
    if l.password == "" {
      PlainFeedSnoc(cfg, k, l.user, '@');
      HostToAt(cfg, h);
      assert l.user + ['@'] == LoginText(l);
    } else {
      PlainFeedConcat(cfg, k, l.user, ":" + l.password + "@");
      PasswordLogin(cfg, h, l.password);
      assert l.user + (":" + l.password + "@") == LoginText(l);
    }
  }

  lemma AtChar(cfg: Config, k: Core, c: char)
    requires k.state == InHost(HostAt) && !k.protocol.NoProtocol? && (Letter(c) || Digit(c))
    ensures PlainStep(cfg, k, c) == k.(state := Host, buf := k.buf + [c])
  {
    hide HostStep, IsAllowable;
    PartStep(cfg, k, c);
    LabelChar(c);
  }

  /** The first label behind a login without a password. */
  lemma AtLabel(cfg: Config, k: Core, v: string)
    requires k.state == InHost(HostAt) && !k.protocol.NoProtocol? && LabelText(v)
    ensures var n := PlainFeed(cfg, k, v); n == k.(state := Host, domain := n.domain, buf := k.buf + v)
  {
    hide PlainStep, PlainFeed, Letter, Digit;
    var c, rest := v[0], v[1..];
    assert v == [c] + rest;
    AtChar(cfg, k, c);
    PlainFeedOne(cfg, k, c);
    PlainFeedConcat(cfg, k, [c], rest);
    HostChars(cfg, PlainStep(cfg, k, c), rest);
    assert k.buf + v == (k.buf + [c]) + rest;
  }
}
