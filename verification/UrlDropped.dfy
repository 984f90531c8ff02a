/** Beginnings of URLs that are given up: told from the text, without the machine. */
module UrlsDropped {
  import opened UrlTypes
  import opened UrlMachine
  import opened UrlInvariant
  import opened UrlReplay
  import opened UrlTexts
  import opened UrlPaths
  import opened UrlReading
  import opened UrlsFound
  import opened UrlAddresses

  // ----- Schemes -----

  /** A scheme and its colon are given up unless two slashes follow. */
  lemma SchemeNeedsSlashes(cfg: Config, p: Protocol, scheme: string, c: char)
    requires !p.NoProtocol? && Spells(scheme, SchemeName(p)) && Spoken(cfg, p) && c != '/'
    ensures PlainFeed(cfg, Fresh(), scheme + ":" + [c]) == Fresh()
    ensures PlainFeed(cfg, Fresh(), scheme + ":/" + [c]) == Fresh()
  {
    hide PlainFeed, PlainStep, Spells, Spoken, SchemeStates, Suggested, SchemeName;
    SchemeColonRead(cfg, p, scheme);
    var t := scheme + ":";
    var k := PlainFeed(cfg, Fresh(), t);
    PlainFeedSnoc(cfg, Fresh(), t, c);
    PlainFeedSnoc(cfg, Fresh(), t, '/');
    assert t + ['/'] == scheme + ":/";
    PlainFeedSnoc(cfg, Fresh(), scheme + ":/", c);
    OneSlash(cfg, k);
    SlashMissing(cfg, k, c);
    SlashMissing(cfg, PlainStep(cfg, k, '/'), c);
  }

  lemma SlashMissing(cfg: Config, k: Core, c: char)
    requires c != '/' && (k.state == InPrefix(DelimiterSlash1) || k.state == InPrefix(DelimiterSlash2))
    ensures PlainStep(cfg, k, c) == Fresh()
  {
    hide ProtocolStep, HostStep, HostNStep, HostPartStep, PathStep, ExtensionStep, IdStep, SaveUrl;
  }

  /** A scheme with its slashes, and one with `www.` behind it, are given up at a character that no URL has. */
  lemma PrefixNeedsName(cfg: Config, p: Protocol, scheme: string, www: string, c: char)
    requires !p.NoProtocol? && Spells(scheme, SchemeName(p)) && Spoken(cfg, p) && !UrlChar(c)
    requires www == "" || Spells(www, "www.")
    ensures PlainFeed(cfg, Fresh(), scheme + "://" + www + [c]) == Fresh()
  {
    hide PlainFeed, PlainStep, Spells, Spoken, UrlChar;
    SchemeRead(cfg, p, scheme);
    var t := scheme + "://";
    PlainFeedConcat(cfg, Fresh(), t, www);
    NothingRead(cfg, Schemed(p, t));
    if www != "" {
      WwwRead(cfg, Schemed(p, t), www);
    }
    PlainFeedSnoc(cfg, Fresh(), t + www, c);
    NameMissing(cfg, PlainFeed(cfg, Fresh(), t + www), c);
  }

  lemma NameMissing(cfg: Config, k: Core, c: char)
    requires !UrlChar(c) && (k.state == InPrefix(CheckWww) || k.state == InPrefix(CheckFilesharing))
    ensures PlainStep(cfg, k, c) == Fresh()
  {
    hide ProtocolStep, HostStep, HostNStep, HostPartStep, PathStep, ExtensionStep;
    hide IdStep, SaveUrl, UrlChar, IsAllowable;
    CharactersAgree(c);
    NoSign(c);
  }

  // ----- Behind a host -----

  /** A full stop behind a host is followed by a label or a blank; another sign drops the host. */
  lemma StopNeedsLabel(cfg: Config, w: Written, c: char)
    requires WrittenOk(cfg, w) && w.port == "" && w.rest == "" && !Blank(c) && !Letter(c) && !Digit(c)
    ensures PlainFeed(cfg, Fresh(), Text(w) + "." + [c]) == Fresh()
  {
    hide PlainFeed, PlainStep, WrittenOk, Text, DomainAccepted;
    StopRead(cfg, w);
    PlainFeedSnoc(cfg, Fresh(), Text(w) + ".", c);
    LabelMissing(cfg, PlainFeed(cfg, Fresh(), Text(w) + "."), c);
  }

  lemma LabelMissing(cfg: Config, k: Core, c: char)
    requires k.state == InHost(HostDot) && !Blank(c) && !Letter(c) && !Digit(c)
    ensures PlainStep(cfg, k, c) == Fresh()
  {
    hide SaveUrl, HostStep, IsIpv4Segment;
    PartStep(cfg, k, c);
    CharactersAgree(c);
  }

  /** A colon, a password and the sign of a login are given up at a character that no URL has. */
  lemma LoginNeedsHost(cfg: Config, p: Protocol, scheme: string, l: Login, c: char)
    requires !p.NoProtocol? && Spells(scheme, SchemeName(p)) && Spoken(cfg, p) && !UrlChar(c)
    requires l.Login? && LabelText(l.user) && !Www(l.user) && PasswordText(l.password)
    ensures var t := scheme + "://" + l.user + ":" + l.password;
      PlainFeed(cfg, Fresh(), t + [c]) == Fresh()
    ensures l.password == "" ==> PlainFeed(cfg, Fresh(), scheme + "://" + LoginText(l) + [c]) == Fresh()
  {
    hide PlainFeed, PlainStep, Spells, Spoken, UrlChar, LabelText, Www, PasswordText, AllDigits;
    var s := scheme + "://";
    SchemeRead(cfg, p, scheme);
    var k := Schemed(p, s);
    HostLabel(cfg, k, l.user);
    PlainFeedConcat(cfg, Fresh(), s, l.user);
    var h := PlainFeed(cfg, k, l.user);
    PlainFeedSnoc(cfg, Fresh(), s + l.user, ':');
    assert (s + l.user) + [':'] == s + l.user + ":";
    HostSigns(cfg, h);
    var m := PlainStep(cfg, h, ':');
    PlainFeedConcat(cfg, Fresh(), s + l.user + ":", l.password);
    NothingRead(cfg, m);
    if l.password != "" {
      PasswordRead(cfg, m, l.password);
    }
    PlainFeedSnoc(cfg, Fresh(), s + l.user + ":" + l.password, c);
    LoginBroken(cfg, PlainFeed(cfg, m, l.password), c);
    PlainFeedConcat(cfg, Fresh(), s, LoginText(l));
    LoginRead(cfg, k, l);
    PlainFeedSnoc(cfg, Fresh(), s + LoginText(l), c);
    LoginBroken(cfg, PlainFeed(cfg, k, LoginText(l)), c);
  }

  lemma LoginBroken(cfg: Config, k: Core, c: char)
    requires !UrlChar(c)
    ensures k.state.InHost? && !k.state.part.HostDot? && !k.state.part.PortDot? ==> PlainStep(cfg, k, c) == Fresh()
  {
    hide SaveUrl, HostStep, IsIpv4Segment, UrlChar, IsAllowable;
    CharactersAgree(c);
    NoSign(c);
    if k.state.InHost? {
      PartStep(cfg, k, c);
      NoUrlDigit(c);
    }
  }

  lemma NoUrlDigit(c: char)
    requires !UrlChar(c)
    ensures !IsDigit(c)
  {
  }
}
