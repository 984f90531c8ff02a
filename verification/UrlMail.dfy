/** E-mail addresses: which are found, told from the text, without the machine. */
module UrlMail {
  import opened UrlTypes
  import opened UrlMachine
  import opened UrlInvariant
  import opened UrlReplay
  import opened UrlTexts
  import opened UrlPaths
  import opened UrlReading
  import UrlAddresses
  import UrlsFound

  // ----- Addresses as people write them -----

  /** `user[.more]…@first.label…`. */
  datatype Address = Address(user: string, more: seq<string>, first: string, labels: seq<string>)

  function NameText(a: Address): string { a.user + LabelsText(a.more) }

  function AddressText(a: Address): string { NameText(a) + "@" + a.first + LabelsText(a.labels) }

  predicate UserSign(c: char) { UrlChar(c) && c !in ".:@/?" }

  /** The part before the sign, up to its first dot. */
  predicate UserText(s: string) {
    s != "" && (Letter(s[0]) || Digit(s[0])) && forall i :: 0 <= i < |s| ==> UserSign(s[i])
  }

  predicate Labels(labels: seq<string>) { forall i :: 0 <= i < |labels| ==> LabelText(labels[i]) }

  predicate AddressOk(a: Address) {
    && UserText(a.user) && Labels(a.more) && LabelText(a.first) && a.labels != [] && Labels(a.labels)
    && (a.more != [] ==> LabelText(a.user) && !Www(a.user))
  }

  /** The letters that a secure web scheme goes on with. */
  function SchemeTail(c: char): string {
    if c == 'f' then "ftps"
    else if c == 'h' then "https"
    else if c == 'i' then "ittps"
    else if c == 'm' then "mttps"
    else ""
  }

  /** The names tried as `https` or `ftps` so far. */
  predicate TriesScheme(s: string) {
    s != "" && var t := SchemeTail(LowerCase(s[0]));
      |s| <= |t| && forall i :: 0 <= i < |s| ==> LowerCase(s[i]) == t[i]
  }

  /** Names that the parser takes for the beginning of `www.` or for a secure web scheme. */
  predicate TakenForPrefix(a: Address) {
    a.more == [] && (Www(a.user) || (TriesScheme(a.user) && |a.user| == |SchemeTail(LowerCase(a.user[0]))|))
  }

  /** What should be reported of an address, and what is reported of one that is taken for a site. */
  predicate AddressTold(a: Address, u: Url) {
    && u.original == AddressText(a) && u.extension == NoExtension
    && if TakenForPrefix(a) then u.kind == Site && u.protocol == Http && u.url == "http://" + u.original
       else u.kind == Email && u.protocol == NoProtocol && u.url == u.original
  }

  // ----- The name -----

  predicate SchemeStage(s: State) {
    s.InProtocol? && (s.proto.T1? || s.proto.T2? || s.proto.P? || s.proto.S? || s.proto.DelimiterColon?)
  }

  function StageOf(s: string): (r: State)
    requires TriesScheme(s)
    ensures SchemeStage(r) && (r == InProtocol(DelimiterColon) <==> |s| == |SchemeTail(LowerCase(s[0]))|)
  {
    var n := |s|;
    if n == 1 then InProtocol(T1)
    else if |SchemeTail(LowerCase(s[0]))| - n == 0 then InProtocol(DelimiterColon)
    else if |SchemeTail(LowerCase(s[0]))| - n == 1 then InProtocol(S)
    else if |SchemeTail(LowerCase(s[0]))| - n == 2 then InProtocol(P)
    else InProtocol(T2)
  }

  /** The core behind the letters of a name. */
  predicate UserRead(v: string, k: Core) {
    && v != "" && k == Fresh().(state := k.state, protocol := k.protocol, domain := k.domain, buf := v)
    && (if Www(v) then k.state == WwwState(v)
        else if TriesScheme(v) then k.state == StageOf(v)
        else (k.state.Host? || k.state.InProtocol?) && !SchemeStage(k.state))
    && (k.state.Host? || k.state.InPrefix? ==> k.protocol.NoProtocol?)
    && (TriesScheme(v) && |v| < |SchemeTail(LowerCase(v[0]))| ==> (k.protocol.Ftp? <==> LowerCase(v[0]) == 'f'))
  }

  lemma OneLetter(c: char)
    ensures Www([c]) <==> LowerCase(c) == 'w'
    ensures TriesScheme([c]) <==> SchemeTail(LowerCase(c)) != ""
    ensures TriesScheme([c]) ==> StageOf([c]) == InProtocol(T1)
  {
    assert [c][0] == c;
  }

  lemma LookupFirst(c: char)
    requires Letter(c) || Digit(c)
    ensures var o, l := LookupStep(Fresh(), c), LowerCase(c);
      o == Consume(if l == 'w' then Fresh().(state := InPrefix(Www2))
                   else if l == 'h' then Fresh().(state := InProtocol(T1), protocol := Http)
                   else if l == 'f' then Fresh().(state := InProtocol(T1), protocol := Ftp)
                   else if l == 'i' then Fresh().(state := InProtocol(T1), protocol := Icq)
                   else if l == 'm' then Fresh().(state := InProtocol(T1), protocol := Agent)
                   else Fresh().(state := Host, domain := [c]))
  {
    CharactersAgree(c);
    assert "" + [c] == [c];
  }

  lemma UserFirst(cfg: Config, c: char)
    requires Letter(c) || Digit(c)
    ensures UserRead([c], PlainStep(cfg, Fresh(), c))
  {
    hide LookupStep, SaveUrl, LowerCase, Letter, Digit, Www, TriesScheme, StageOf, WwwState;
    LookupFirst(c);
    OneLetter(c);
    if LowerCase(c) == 'w' {
      OneW(c);
    }
    assert "" + [c] == [c];
  }

  lemma TriesSnoc(u: string, c: char)
    requires u != ""
    ensures TriesScheme(u + [c]) <==>
      TriesScheme(u) && |u| < |SchemeTail(LowerCase(u[0]))| && LowerCase(c) == SchemeTail(LowerCase(u[0]))[|u|]
    ensures Www(u + [c]) <==> Www(u) && |u| < 3 && LowerCase(c) == 'w'
    ensures Www(u) ==> !TriesScheme(u)
    ensures TriesScheme(u) ==> |u| <= |SchemeTail(LowerCase(u[0]))|
  {
    hide LowerCase;
    var t := u + [c];
    assert t[0] == u[0] && t[|u|] == c && forall i :: 0 <= i < |u| ==> t[i] == u[i];
  }

  lemma UserSigns(c: char)
    requires UserSign(c)
    ensures IsAllowable(c) && !IsSpace(c) && c != '.' && c != ':' && c != '@' && c != '/' && c != '?'
  {
    CharactersAgree(c);
  }

  /** One more letter while another protocol is tried. */
  lemma TriedLetter(cfg: Config, s: ProtocolState, p: Protocol, c: char)
    requires UserSign(c) && !SchemeStage(InProtocol(s))
    ensures match ProtocolNext(cfg, s, p, c)
      case Advance(to, next) => to.InProtocol? && !SchemeStage(to)
      case AsHost(kept) => kept.NoProtocol?
      case Drop => false
  {
    hide UserSign, Is, IsAllowable, IsSpace;
    UserSigns(c);
  }

  /** One more letter while a web scheme is tried: it goes on, or leaves the scheme for good. */
  predicate StageMove(cfg: Config, u: string, p: Protocol, c: char)
    requires TriesScheme(u)
  {
    var m := ProtocolNext(cfg, StageOf(u).proto, p, c);
    if TriesScheme(u + [c]) then
      m.Advance? && m.to == StageOf(u + [c]) && (|u + [c]| < |SchemeTail(LowerCase(u[0]))| ==> m.next == p)
    else if m.Advance? then m.to.InProtocol? && !SchemeStage(m.to)
    else m == AsHost(NoProtocol)
  }

  lemma FileLetter(cfg: Config, u: string, p: Protocol, c: char)
    requires TriesScheme(u) && |u| < 4 && p.Ftp? && LowerCase(u[0]) == 'f' && UserSign(c)
    ensures StageMove(cfg, u, p, c)
  {
    hide UserSign, IsAllowable, IsSpace, LowerCase, Is;
    TriesSnoc(u, c);
    UserSigns(c);
    LowerAgrees(c);
    assert (u + [c])[0] == u[0];
  }

  lemma WebSecondLetter(cfg: Config, u: string, p: Protocol, c: char)
    requires TriesScheme(u) && |u| == 1 && !p.Ftp? && LowerCase(u[0]) != 'f' && UserSign(c)
    ensures StageMove(cfg, u, p, c)
  {
    hide UserSign, IsAllowable, IsSpace, LowerCase, Is;
    TriesSnoc(u, c);
    UserSigns(c);
    LowerAgrees(c);
    assert (u + [c])[0] == u[0];
  }

  lemma WebLaterLetter(cfg: Config, u: string, p: Protocol, c: char)
    requires TriesScheme(u) && 1 < |u| < 5 && !p.Ftp? && LowerCase(u[0]) != 'f' && UserSign(c)
    ensures StageMove(cfg, u, p, c)
  {
    hide UserSign, IsAllowable, IsSpace, LowerCase, Is;
    TriesSnoc(u, c);
    UserSigns(c);
    LowerAgrees(c);
    assert (u + [c])[0] == u[0];
  }

  lemma StageLetter(cfg: Config, u: string, p: Protocol, c: char)
    requires TriesScheme(u) && |u| < |SchemeTail(LowerCase(u[0]))| && UserSign(c)
    requires p.Ftp? <==> LowerCase(u[0]) == 'f'
    ensures StageMove(cfg, u, p, c)
  {
    hide UserSign, StageMove, LowerCase;
    if p.Ftp? {
      FileLetter(cfg, u, p, c);
    } else if |u| == 1 {
      WebSecondLetter(cfg, u, p, c);
    } else {
      WebLaterLetter(cfg, u, p, c);
    }
  }

  lemma ColonLetter(cfg: Config, p: Protocol, c: char)
    requires UserSign(c)
    ensures ProtocolNext(cfg, DelimiterColon, p, c) == Advance(Host, NoProtocol)
  {
    hide IsAllowable, IsSpace, UserSign, Is;
    UserSigns(c);
  }

  lemma HostLetter(k: Core, c: char)
    requires UserSign(c)
    ensures HostStep(k, c) == Consume(k.(domain := k.domain + [c]))
  {
    hide IsAllowable, UserSign;
    UserSigns(c);
  }

  lemma TriedStep(cfg: Config, k: Core, c: char)
    requires k.state.InProtocol? && UserSign(c)
    ensures match ProtocolNext(cfg, k.state.proto, k.protocol, c)
      case Advance(to, next) => PlainStep(cfg, k, c) == k.(state := to, protocol := next, buf := k.buf + [c])
      case AsHost(kept) =>
        PlainStep(cfg, k, c) == k.(state := Host, protocol := kept, domain := k.domain + [c], buf := k.buf + [c])
      case Drop => true
  {
    hide ProtocolNext, HostStep, UserSign, SaveUrl;
    HostLetter(k.(state := Host, protocol := match ProtocolNext(cfg, k.state.proto, k.protocol, c)
      case AsHost(kept) => kept case _ => NoProtocol), c);
  }

  lemma UserStep(cfg: Config, u: string, k: Core, c: char)
    requires UserRead(u, k) && UserSign(c)
    ensures UserRead(u + [c], PlainStep(cfg, k, c))
  {
    hide PlainStep, UserSign, Www, TriesScheme, SchemeTail, StageOf, LowerCase, ProtocolNext;
    TriesSnoc(u, c);
    if Www(u) {
      SignIsUrlChar(c);
      UrlAddresses.WwwChar(cfg, k, u, c);
    } else if k.state.Host? {
      HostWord(cfg, k, c);
    } else {
      TriedStep(cfg, k, c);
      if !TriesScheme(u) {
        TriedLetter(cfg, k.state.proto, k.protocol, c);
      } else if |u| < |SchemeTail(LowerCase(u[0]))| {
        StageLetter(cfg, u, k.protocol, c);
      } else {
        ColonLetter(cfg, k.protocol, c);
      }
      assert (u + [c])[0] == u[0];
    }
  }

  lemma SignIsUrlChar(c: char)
    requires UserSign(c)
    ensures UrlChar(c) && c != '.'
  {
  }

  lemma HostWord(cfg: Config, k: Core, c: char)
    requires k.state.Host? && UserSign(c)
    ensures PlainStep(cfg, k, c) == k.(domain := k.domain + [c], buf := k.buf + [c])
  {
    hide HostStep, UserSign, SaveUrl;
    HostLetter(k, c);
  }

  lemma {:induction false} UserTextRead(cfg: Config, v: string)
    requires UserText(v)
    ensures UserRead(v, PlainFeed(cfg, Fresh(), v))
  {
    hide PlainStep, UserRead, UserSign, Letter, Digit;
    var u, c := v[..|v| - 1], v[|v| - 1];
    assert u + [c] == v;
    if u == "" {
      assert v == [c];
      UserFirst(cfg, c);
      PlainFeedOne(cfg, Fresh(), c);
    } else {
      UserTextRead(cfg, u);
      UserStep(cfg, u, PlainFeed(cfg, Fresh(), u), c);
    }
  }

  // ----- The sign -----

  /** The core behind the sign. */
  predicate AtSign(a: Address, k: Core) {
    && k == Fresh().(state := k.state, domain := k.domain, segments := |a.more| + 1, ipv4 := k.ipv4,
                     isEmail := k.isEmail, buf := NameText(a) + "@")
    && (if TakenForPrefix(a) then k.state.Host? && !k.isEmail
        else (k.state == InHost(HostAt) && !k.isEmail) || (k.state.Host? && k.isEmail))
  }

  lemma SignInProtocol(cfg: Config, s: ProtocolState, p: Protocol)
    ensures ProtocolNext(cfg, s, p, '@') == if s.DelimiterColon? then Advance(Host, NoProtocol) else AsHost(NoProtocol)
  {
  }

  lemma SignStep(cfg: Config, k: Core)
    ensures k.state.InProtocol? ==>
      PlainStep(cfg, k, '@') == k.(state := if k.state.proto.DelimiterColon? then Host else InHost(HostAt),
                                   protocol := NoProtocol, buf := k.buf + ['@'])
    ensures k.state.InPrefix? && (k.state.prefix.Www2? || k.state.prefix.Www3? || k.state.prefix.Www4?) ==>
      PlainStep(cfg, k, '@') == k.(state := Host, buf := k.buf + ['@'])
    ensures k.state.Host? ==> PlainStep(cfg, k, '@') == k.(state := InHost(HostAt), buf := k.buf + ['@'])
    ensures k.state.HostN? && !k.isEmail && !k.isNotEmail ==>
      PlainStep(cfg, k, '@') == k.(state := Host, isEmail := true, buf := k.buf + ['@'])
  {
    hide ProtocolNext, SaveUrl, HostPartStep, PathStep, ExtensionStep, IdStep, Accepted;
    if k.state.InProtocol? {
      SignInProtocol(cfg, k.state.proto, k.protocol);
    }
  }

  lemma UserSignRead(cfg: Config, a: Address, k: Core)
    requires a.more == [] && UserRead(a.user, k)
    ensures AtSign(a, PlainStep(cfg, k, '@'))
  {
    hide PlainStep;
    SignStep(cfg, k);
    TriesSnoc(a.user, '@');
    assert LabelsText(a.more) == "" && NameText(a) == a.user && a.user + ['@'] == a.user + "@";
  }

  lemma SignRead(cfg: Config, a: Address)
    requires AddressOk(a)
    ensures AtSign(a, PlainFeed(cfg, Fresh(), NameText(a) + "@"))
  {
    hide PlainStep, PlainFeed, UserText, UserRead, LabelText, Www, TriesScheme, IsIpv4Segment;
    PlainFeedSnoc(cfg, Fresh(), NameText(a), '@');
    assert NameText(a) + ['@'] == NameText(a) + "@";
    if a.more == [] {
      assert NameText(a) == a.user;
      UserTextRead(cfg, a.user);
      UserSignRead(cfg, a, PlainFeed(cfg, Fresh(), a.user));
    } else {
      var f := a.user + ".";
      BareFirst(cfg, a.user);
      var k := PlainFeed(cfg, Fresh(), f);
      JoinedText(a.more);
      assert NameText(a) == f + Joined(a.more);
      PlainFeedConcat(cfg, Fresh(), f, Joined(a.more));
      LaterLabels(cfg, k, a.more);
      SignStep(cfg, Labelled(k, a.more));
    }
  }

  // ----- The host -----

  /** The core behind an address. */
  predicate AtAddress(a: Address, k: Core)
    requires a.labels != []
  {
    && k == Fresh().(state := HostN, domain := a.labels[|a.labels| - 1], segments := |a.more| + 1 + |a.labels|,
                     ipv4 := k.ipv4, isEmail := !TakenForPrefix(a), buf := AddressText(a))
  }

  lemma AtChar(cfg: Config, k: Core, c: char)
    requires k.state == InHost(HostAt) && k.protocol.NoProtocol? && !k.isEmail && !k.isNotEmail
    requires (Letter(c) || Digit(c))
    ensures PlainStep(cfg, k, c) == k.(state := Host, isEmail := true, buf := k.buf + [c])
  {
    hide HostStep, IsAllowable, SaveUrl;
    PartStep(cfg, k, c);
    LabelChar(c);
  }

  lemma FirstRead(cfg: Config, a: Address, k: Core)
    requires AtSign(a, k) && LabelText(a.first)
    ensures var n := PlainFeed(cfg, k, a.first);
      n == k.(state := Host, domain := n.domain, isEmail := !TakenForPrefix(a), buf := k.buf + a.first)
  {
    hide PlainStep, PlainFeed, Letter, Digit, TakenForPrefix, NameText;
    if k.state.Host? {
      HostChars(cfg, k, a.first);
    } else {
      var c, rest := a.first[0], a.first[1..];
      assert a.first == [c] + rest;
      AtChar(cfg, k, c);
      PlainFeedOne(cfg, k, c);
      PlainFeedConcat(cfg, k, [c], rest);
      HostChars(cfg, PlainStep(cfg, k, c), rest);
      assert k.buf + a.first == (k.buf + [c]) + rest;
    }
  }

  lemma AddressRead(cfg: Config, a: Address)
    requires AddressOk(a)
    ensures AtAddress(a, PlainFeed(cfg, Fresh(), AddressText(a)))
  {
    hide PlainStep, PlainFeed, UserText, LabelText, Www, TakenForPrefix, NameText, Numbers;
    var t, f, j := NameText(a) + "@", a.first + ".", Joined(a.labels);
    SignRead(cfg, a);
    var k := PlainFeed(cfg, Fresh(), t);
    FirstRead(cfg, a, k);
    var m := PlainFeed(cfg, k, a.first);
    PlainFeedSnoc(cfg, k, a.first, '.');
    assert a.first + ['.'] == f;
    DotRead(cfg, m);
    var d := PlainStep(cfg, m, '.');
    LaterLabels(cfg, d, a.labels);
    PlainFeedConcat(cfg, Fresh(), t, f);
    PlainFeedConcat(cfg, Fresh(), t + f, j);
    JoinedText(a.labels);
    assert AddressText(a) == (t + f) + j;
    assert t + f == (t + a.first) + ['.'];
  }

  // ----- The end -----

  predicate KnownDomain(cfg: Config, a: Address)
    requires a.labels != []
  {
    cfg.tld(InLowerCase(a.labels[|a.labels| - 1]))
  }

  /** With four labels in all, a host of numbers might be accepted without a known domain. */
  predicate FourLabels(a: Address) { |a.more| + |a.labels| == 3 }

  lemma AddressAccepted(cfg: Config, a: Address, k: Core)
    requires AddressOk(a) && AtAddress(a, k)
    ensures KnownDomain(cfg, a) ==> DomainAccepted(cfg, k)
    ensures !KnownDomain(cfg, a) && !FourLabels(a) ==> !DomainAccepted(cfg, k)
  {
    hide AddressText, TakenForPrefix, Lower, InLowerCase;
    var last := a.labels[|a.labels| - 1];
    assert LabelText(last);
    UrlsFound.LowerSame(last);
  }

  lemma AddressEnds(cfg: Config, k: Core, c: char)
    requires k.state.HostN? && (Blank(c) || c in ",!\"'`>]);")
    ensures PlainOutcome(cfg, k, c) == if DomainAccepted(cfg, k) then Save(k) else Restart
  {
    hide Accepted, IsAllowable, UrlChar;
    CharactersAgree(c);
  }

  lemma LastIsLabel(a: Address)
    requires AddressOk(a)
    ensures var t := AddressText(a); t != "" && !IsEnding(t[|t| - 1])
  {
    hide NameText, UserText, Www;
    var n := |a.labels| - 1;
    var last, t := a.labels[n], AddressText(a);
    assert LabelText(last);
    LabelChar(last[|last| - 1]);
    assert LabelsText(a.labels) == LabelsText(a.labels[..n]) + "." + last;
    assert t[|t| - 1] == last[|last| - 1];
  }

  lemma AddressSaved(cfg: Config, a: Address, k: Core)
    requires AddressOk(a) && a.labels != [] && AtAddress(a, k)
    ensures var (ok, n) := SaveUrl(cfg, k);
      if DomainAccepted(cfg, k) || !TakenForPrefix(a) then n.report.Reported? && AddressTold(a, n.report.found)
      else n.report.NoUrl?
    ensures DomainAccepted(cfg, k) ==> SaveUrl(cfg, k).0
  {
    hide AddressOk, AddressText, TakenForPrefix, Accepted;
    LastIsLabel(a);
    assert TailLength(k.buf) == 0;
    assert Trimmed(k).buf == k.buf;
    assert DomainAccepted(cfg, Trimmed(k)) == DomainAccepted(cfg, k);
  }

  /** Before a character that ends it an address in a known domain is reported, and one in an unknown domain is
      dropped; an address whose name is taken for a prefix is told as a site. */
  lemma AddressFound(cfg: Config, a: Address, c: char)
    requires AddressOk(a) && (Blank(c) || c in ",!\"'`>]);")
    ensures var n := PlainFeed(cfg, Fresh(), AddressText(a) + [c]);
      && (KnownDomain(cfg, a) ==> n.report.Reported? && AddressTold(a, n.report.found))
      && (!KnownDomain(cfg, a) && !FourLabels(a) ==> n == Fresh())
  {
    hide PlainFeed, PlainOutcome, AddressText, DomainAccepted, SaveUrl, KnownDomain;
    hide TakenForPrefix, AddressTold, Labels;
    hide UserText, LabelText, Blank;
    AddressRead(cfg, a);
    var k := PlainFeed(cfg, Fresh(), AddressText(a));
    PlainFeedSnoc(cfg, Fresh(), AddressText(a), c);
    AddressEnds(cfg, k, c);
    AddressAccepted(cfg, a, k);
    AddressSaved(cfg, a, k);
  }

  /** At the end of a text every address is reported, whatever its domain, unless it is taken for a site. */
  lemma AddressAtEnd(cfg: Config, a: Address)
    requires AddressOk(a)
    ensures var r := SaveUrl(cfg, PlainFeed(cfg, Fresh(), AddressText(a))).1.report;
      && (KnownDomain(cfg, a) || !TakenForPrefix(a) ==> r.Reported? && AddressTold(a, r.found))
      && (!KnownDomain(cfg, a) && !FourLabels(a) && TakenForPrefix(a) ==> r.NoUrl?)
  {
    hide PlainFeed, AddressText, DomainAccepted, SaveUrl, KnownDomain, TakenForPrefix, AddressTold;
    AddressRead(cfg, a);
    var k := PlainFeed(cfg, Fresh(), AddressText(a));
    AddressAccepted(cfg, a, k);
    AddressSaved(cfg, a, k);
  }

  lemma StopTrimmed(t: string)
    requires t != "" && !IsEnding(t[|t| - 1])
    ensures TailLength(t + ".") == 1
  {
    assert (t + ".")[..|t|] == t && (t + ".")[|t|] == '.';
    assert TailLength(t) == 0;
  }

  lemma StopSaved(cfg: Config, a: Address, k: Core, ipv4: int)
    requires AddressOk(a) && a.labels != [] && AtAddress(a, k)
    ensures var d := k.(state := InHost(HostDot), ipv4 := ipv4, buf := k.buf + "."); var (ok, n) := SaveUrl(cfg, d);
      DomainAccepted(cfg, d) || !TakenForPrefix(a) ==> ok && n.report.Reported? && AddressTold(a, n.report.found)
  {
    hide AddressOk, AddressText, TakenForPrefix, Accepted, TailLength;
    LastIsLabel(a);
    StopTrimmed(k.buf);
    var d := k.(state := InHost(HostDot), ipv4 := ipv4, buf := k.buf + ".");
    assert Trimmed(d).buf == k.buf;
    assert DomainAccepted(cfg, Trimmed(d)) == DomainAccepted(cfg, d);
  }

  /** Behind a full stop and a blank nobody looks at the domain: every address is reported that is not taken
      for a site. */
  lemma AddressBehindStop(cfg: Config, a: Address, c: char)
    requires AddressOk(a) && !TakenForPrefix(a) && Blank(c)
    ensures var r := PlainFeed(cfg, Fresh(), AddressText(a) + "." + [c]).report; r.Reported? && AddressTold(a, r.found)
  {
    hide PlainFeed, PlainStep, PlainOutcome, AddressText, DomainAccepted, SaveUrl, TakenForPrefix, AddressTold, Labels;
    hide UserText, LabelText;
    var t := AddressText(a);
    AddressRead(cfg, a);
    var k := PlainFeed(cfg, Fresh(), t);
    assert t + ['.'] == t + ".";
    PlainFeedSnoc(cfg, Fresh(), t, '.');
    DotRead(cfg, k);
    var m := PlainStep(cfg, k, '.');
    PlainFeedSnoc(cfg, Fresh(), t + ".", c);
    UrlAddresses.StopOutcome(cfg, m, c);
    StopSaved(cfg, a, k, DotCounted(m));
    SavedAtStop(cfg, m, c);
  }

  lemma SavedAtStop(cfg: Config, m: Core, c: char)
    requires m.state == InHost(HostDot) && PlainOutcome(cfg, m, c) == Save(m.(ipv4 := DotCounted(m)))
    ensures var (ok, n) := SaveUrl(cfg, m.(ipv4 := DotCounted(m))); ok ==> PlainStep(cfg, m, c) == n
  {
    hide PlainOutcome, SaveUrl;
  }

  lemma AddressBreaks(cfg: Config, k: Core, c: char)
    requires k.state.HostN? && k.isEmail
    ensures PlainOutcome(cfg, k, '?') == Save(k)
    ensures !Letter(c) && !Digit(c) && c !in "-.?" && !Blank(c) && c !in ",!\"'`>]);" ==>
      PlainOutcome(cfg, k, c) == Restart
  {
    hide Accepted, IsAllowable, UrlChar;
    CharactersAgree(c);
  }

  /** A question mark ends an address, whatever its domain; a second sign, a colon, a slash and whatever else
      neither goes on with it nor ends it give it up. */
  lemma AddressElsewhere(cfg: Config, a: Address, c: char)
    requires AddressOk(a) && !TakenForPrefix(a)
    ensures var r := PlainFeed(cfg, Fresh(), AddressText(a) + ['?']).report; r.Reported? && AddressTold(a, r.found)
    ensures !Letter(c) && !Digit(c) && c !in "-.?" && !Blank(c) && c !in ",!\"'`>]);" ==>
      PlainFeed(cfg, Fresh(), AddressText(a) + [c]) == Fresh()
  {
    hide PlainFeed, PlainOutcome, AddressText, DomainAccepted, SaveUrl, TakenForPrefix, AddressTold, Labels;
    hide UserText, LabelText, Blank, Letter, Digit;
    AddressRead(cfg, a);
    var k := PlainFeed(cfg, Fresh(), AddressText(a));
    PlainFeedSnoc(cfg, Fresh(), AddressText(a), c);
    PlainFeedSnoc(cfg, Fresh(), AddressText(a), '?');
    AddressBreaks(cfg, k, c);
    AddressSaved(cfg, a, k);
    AsksSaved(cfg, k);
  }

  lemma AsksSaved(cfg: Config, k: Core)
    requires k.state.HostN? && k.isEmail && k.segments != 1 && k.protocol.NoProtocol?
    ensures SaveUrl(cfg, k).0
  {
    hide TailLength;
  }

  lemma SignBreaks(cfg: Config, k: Core, c: char)
    requires k.state == InHost(HostAt) && k.protocol.NoProtocol? && (k.isEmail || !UrlChar(c))
    ensures PlainStep(cfg, k, c) == Fresh()
  {
    hide HostStep, IsAllowable, UrlChar, SaveUrl;
    PartStep(cfg, k, c);
    CharactersAgree(c);
  }

  /** A second sign behind the first label gives the address up with the next character, whatever it is. */
  lemma SecondSign(cfg: Config, a: Address, c: char)
    requires AddressOk(a) && !TakenForPrefix(a)
    ensures PlainFeed(cfg, Fresh(), NameText(a) + "@" + a.first + "@" + [c]) == Fresh()
  {
    hide PlainFeed, PlainStep, UserText, LabelText, Www, TakenForPrefix, NameText, Labels;
    var t := NameText(a) + "@";
    SignRead(cfg, a);
    var k := PlainFeed(cfg, Fresh(), t);
    FirstRead(cfg, a, k);
    PlainFeedConcat(cfg, Fresh(), t, a.first);
    PlainFeedSnoc(cfg, Fresh(), t + a.first, '@');
    assert t + a.first + ['@'] == t + a.first + "@";
    SignStep(cfg, PlainFeed(cfg, Fresh(), t + a.first));
    PlainFeedSnoc(cfg, Fresh(), t + a.first + "@", c);
    SignBreaks(cfg, PlainFeed(cfg, Fresh(), t + a.first + "@"), c);
  }

  // ----- Words that are no addresses -----

  /** A word of which no letter is taken for a prefix. */
  predicate BareWord(v: string) {
    UserText(v) && !Www(v) && !(TriesScheme(v) && |v| == |SchemeTail(LowerCase(v[0]))|)
  }

  /** A character at which a word cannot go on. */
  predicate WordBreak(c: char) { c == '/' || c == '?' || !UrlChar(c) }

  lemma WordBreakSigns(c: char)
    requires WordBreak(c)
    ensures !Letter(LowerCase(c)) && c !in ".:@-" && (IsAllowable(c) ==> c == '/' || c == '?')
  {
  }

  lemma ProtocolBreaks(cfg: Config, s: ProtocolState, p: Protocol, c: char)
    requires WordBreak(c) && !s.DelimiterColon?
    ensures var m := ProtocolNext(cfg, s, p, c); m.Drop? || m == AsHost(NoProtocol)
  {
    hide IsAllowable, IsSpace, WordBreak, LowerCase, Is;
    WordBreakSigns(c);
    LowerAgrees(c);
  }

  lemma HostBreaks(cfg: Config, k: Core, c: char)
    requires WordBreak(c) && k.protocol.NoProtocol?
    ensures HostStep(k, c) == Restart
  {
    hide IsAllowable, WordBreak;
    WordBreakSigns(c);
  }

  lemma WordBreaks(cfg: Config, k: Core, c: char)
    requires WordBreak(c)
    ensures k.state.Host? && k.protocol.NoProtocol? ==> PlainStep(cfg, k, c) == Fresh()
    ensures k.state.InProtocol? && !k.state.proto.DelimiterColon? ==> PlainStep(cfg, k, c) == Fresh()
  {
    hide SaveUrl, WordBreak, HostStep, ProtocolNext;
    if k.state.InProtocol? && !k.state.proto.DelimiterColon? {
      ProtocolBreaks(cfg, k.state.proto, k.protocol, c);
      HostBreaks(cfg, k.(state := Host, protocol := NoProtocol), c);
    } else if k.state.Host? && k.protocol.NoProtocol? {
      HostBreaks(cfg, k, c);
    }
  }

  /** A bare word is dropped at a slash, a question mark and every character that no URL has. */
  lemma WordDropped(cfg: Config, v: string, c: char)
    requires BareWord(v) && WordBreak(c)
    ensures PlainFeed(cfg, Fresh(), v + [c]) == Fresh()
  {
    hide PlainFeed, PlainStep, UserText, Www, WordBreak;
    UserTextRead(cfg, v);
    TriesSnoc(v, c);
    WordBreaks(cfg, PlainFeed(cfg, Fresh(), v), c);
    PlainFeedSnoc(cfg, Fresh(), v, c);
    WordNotEmpty(v);
  }

  lemma WordNotEmpty(v: string)
    requires UserText(v)
    ensures v != ""
  {
  }

  /** And it is no URL at the end of a text. */
  lemma WordSilent(cfg: Config, v: string)
    requires BareWord(v)
    ensures SaveUrl(cfg, PlainFeed(cfg, Fresh(), v)).1.report.NoUrl?
  {
    hide PlainFeed, PlainStep, UserText, Www, SchemeTail;
    UserTextRead(cfg, v);
    WordNotEmpty(v);
    FreshInv(cfg);
    PlainFeedInv(cfg, Fresh(), v);
    WordUnsaved(cfg, v, PlainFeed(cfg, Fresh(), v));
  }

  lemma FreshInv(cfg: Config)
    ensures CoreInv(cfg, Fresh())
  {
  }

  lemma WordUnsaved(cfg: Config, v: string, k: Core)
    requires UserRead(v, k) && !Www(v) && CoreInv(cfg, k)
    ensures SaveUrl(cfg, k).1.report.NoUrl?
  {
    hide TailLength;
  }
}
