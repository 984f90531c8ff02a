/** Hosts behind which a sentence ends, hosts of one name and e-mail addresses: which are found, told from
    the text, without the machine. */
module UrlAddresses {
  import opened UrlTypes
  import opened UrlMachine
  import opened UrlInvariant
  import opened UrlReplay
  import opened UrlTexts
  import opened UrlPaths
  import opened UrlReading
  import opened UrlsFound

  // ----- A full stop behind a host -----

  /** Behind a full stop and a blank a host of four numbers is no longer vouched for. */
  predicate VouchedBehindStop(cfg: Config, w: Written) {
    w.labels != [] ==>
      var last := w.labels[|w.labels| - 1];
      !w.protocol.NoProtocol? || cfg.tld(InLowerCase(last)) || !SmallNumber(last)
  }

  lemma StopOutcome(cfg: Config, k: Core, c: char)
    requires k.state == InHost(HostDot) && Blank(c)
    ensures PlainOutcome(cfg, k, c) == Save(k.(ipv4 := DotCounted(k)))
  {
    hide Accepted, IsIpv4Segment;
    CharactersAgree(c);
    BlankNoDigit(c);
  }

  lemma StopAccepted(cfg: Config, w: Written, k: Core)
    requires WrittenOk(cfg, w) && AtHost(cfg, w, k)
    ensures DomainAccepted(cfg, k.(ipv4 := DotCounted(k))) <==> VouchedBehindStop(cfg, w)
  {
    hide Www, PasswordText, Spells, RestShape, AllUrlChars, Spoken, Lower, InLowerCase, HostPart;
    var last := w.labels[|w.labels| - 1];
    LowerSame(last);
    assert IsIpv4Segment(last) <==> SmallNumber(last);
    assert LabelText(last);
  }

  lemma StopRead(cfg: Config, w: Written)
    requires WrittenOk(cfg, w) && w.port == "" && w.rest == ""
    ensures var k := PlainFeed(cfg, Fresh(), Text(w)); var n := PlainFeed(cfg, Fresh(), Text(w) + ".");
      w.labels != [] && AtHost(cfg, w, k) && n == k.(state := InHost(HostDot), buf := Text(w) + ".")
  {
    hide PlainFeed, PlainStep, WrittenOk, DomainAccepted, HostPart;
    HostRead(cfg, w);
    assert Text(w) == HostPart(w);
    PlainFeedSnoc(cfg, Fresh(), Text(w), '.');
    DotRead(cfg, PlainFeed(cfg, Fresh(), Text(w)));
    assert Text(w) + ['.'] == Text(w) + ".";
  }

  lemma StopIsTrailing(t: string, o: string)
    requires WithoutTrailing(t + ".", o)
    ensures WithoutTrailing(t, o)
  {
    var s := t + ".";
    assert Punctuation(s[|t|]);
    assert o == s[..|o|];
    assert forall i :: 0 <= i < |t| ==> s[i] == t[i];
  }

  lemma StopTells(cfg: Config, w: Written, k: Core, ipv4: int, u: Url)
    requires w.labels != [] && AtHost(cfg, w, k) && w.port == "" && w.rest == ""
    requires Tells(k.(state := InHost(HostDot), ipv4 := ipv4, buf := Text(w) + "."), u)
    ensures Expected(w, u)
  {
    hide DomainAccepted, Text, HostPart, WithoutTrailing;
    StopIsTrailing(Text(w), u.original);
  }

  /** A host with a full stop and a blank behind it is reported without the full stop; only an address of
      four numbers is dropped there, since its last number is counted once more. */
  lemma FoundBehindStop(cfg: Config, w: Written, c: char)
    requires WrittenOk(cfg, w) && w.port == "" && w.rest == "" && Blank(c)
    ensures var n := PlainFeed(cfg, Fresh(), Text(w) + "." + [c]);
      if VouchedBehindStop(cfg, w) then n.report.Reported? && Expected(w, n.report.found) else n == Fresh()
  {
    hide PlainFeed, PlainOutcome, WrittenOk, Savable, SaveUrl, Tells, Expected, DomainAccepted, VouchedBehindStop, Text;
    StopRead(cfg, w);
    var k := PlainFeed(cfg, Fresh(), Text(w));
    var m := k.(state := InHost(HostDot), buf := Text(w) + ".");
    var d := k.(state := InHost(HostDot), ipv4 := DotCounted(k), buf := Text(w) + ".");
    PlainFeedSnoc(cfg, Fresh(), Text(w) + ".", c);
    StopOutcome(cfg, m, c);
    assert m.(ipv4 := DotCounted(m)) == d;
    StopAccepted(cfg, w, k);
    HostSavable(cfg, d, k);
    if VouchedBehindStop(cfg, w) {
      SavedTells(cfg, d);
      StopTells(cfg, w, k, d.ipv4, SaveUrl(cfg, d).1.report.found);
    }
  }

  lemma HostSavable(cfg: Config, d: Core, k: Core)
    requires k.state.HostN? && k.segments > 1 && !k.isEmail && k.extension.NoExtension? && k.needDomain
    requires d == k.(state := InHost(HostDot), ipv4 := d.ipv4, buf := d.buf)
    ensures DomainAccepted(cfg, d) == DomainAccepted(cfg, k.(ipv4 := d.ipv4))
    ensures if DomainAccepted(cfg, d) then Savable(cfg, d) else !SaveUrl(cfg, d).0
  {
    hide Accepted, TailLength;
  }

  /** At the end of a text such a host is reported in any case. */
  lemma FoundAtLastStop(cfg: Config, w: Written)
    requires WrittenOk(cfg, w) && w.port == "" && w.rest == ""
    ensures var r := SaveUrl(cfg, PlainFeed(cfg, Fresh(), Text(w) + ".")).1.report; r.Reported? && Expected(w, r.found)
  {
    hide PlainFeed, WrittenOk, Savable, SaveUrl, Tells, Expected, DomainAccepted, Text;
    StopRead(cfg, w);
    var k := PlainFeed(cfg, Fresh(), Text(w));
    var m := k.(state := InHost(HostDot), buf := Text(w) + ".");
    HostSavable(cfg, m, k);
    assert k.(ipv4 := m.ipv4) == k;
    SavedTells(cfg, m);
    StopTells(cfg, w, k, k.ipv4, SaveUrl(cfg, m).1.report.found);
  }

  // ----- One name behind a scheme -----

  /** A character of a name behind a scheme; a question mark only behind those of the messengers. */
  predicate NameSign(p: Protocol, c: char) {
    UrlChar(c) && c !in ".:@" && (c == '?' ==> p.Icq? || p.Agent? || p.Biz? || p.Dit?)
  }

  predicate OneName(p: Protocol, t: string) {
    t != "" && (Letter(t[0]) || Digit(t[0])) && forall i :: 0 <= i < |t| ==> NameSign(p, t[i])
  }

  /** How much of a name is taken for the beginning of `www.`: up to three letters `w` and the character behind them. */
  function Unheard(t: string): nat {
    if |t| >= 3 && Www(t[..3]) then 4
    else if |t| >= 2 && Www(t[..2]) then 3
    else if |t| >= 1 && Www(t[..1]) then 2
    else 0
  }

  /** There is more to the name than slashes and question marks. */
  predicate NameHeard(t: string) { exists i :: Unheard(t) <= i < |t| && t[i] != '/' && t[i] != '?' }

  lemma UnheardSnoc(u: string, c: char)
    requires u != ""
    ensures if Www(u) then Unheard(u + [c]) >= |u| + 1 else Unheard(u + [c]) == Unheard(u) <= |u|
    ensures Www(u + [c]) <==> Www(u) && |u| < 3 && LowerCase(c) == 'w'
  {
    hide LowerCase;
    var t := u + [c];
    assert forall i :: 0 <= i < |u| ==> t[i] == u[i];
    assert t[|u|] == c;
    assert forall n :: 0 <= n <= |u| ==> t[..n] == u[..n];
    assert u[..|u|] == u && t[..|t|] == t;
  }

  lemma HeardSnoc(u: string, c: char)
    requires u != ""
    ensures NameHeard(u + [c]) <==> !Www(u) && (NameHeard(u) || (c != '/' && c != '?'))
  {
    hide Www, Unheard;
    UnheardSnoc(u, c);
    var t := u + [c];
    assert t[|u|] == c && forall i :: 0 <= i < |u| ==> t[i] == u[i];
  }

  lemma NameChar(cfg: Config, k: Core, c: char)
    requires k.state.Host? && !k.protocol.NoProtocol? && NameSign(k.protocol, c)
    ensures PlainStep(cfg, k, c)
      == k.(domain := k.domain + if c == '/' || c == '?' then "" else [c], buf := k.buf + [c])
  {
    hide ProtocolStep, HostNStep, HostPartStep, PathStep, ExtensionStep, IdStep;
    hide SaveUrl, PrefixStep, IsAllowable, UrlChar;
    CharactersAgree(c);
    assert k.domain + "" == k.domain;
  }

  lemma WwwChar(cfg: Config, k: Core, u: string, c: char)
    requires Www(u) && k.state == WwwState(u) && UrlChar(c) && c != '.'
    ensures PlainStep(cfg, k, c) == k.(state := WwwState(u + [c]), buf := k.buf + [c])
  {
    hide ProtocolStep, HostStep, HostNStep, HostPartStep, PathStep, ExtensionStep;
    hide IdStep, SaveUrl, IsAllowable, UrlChar;
    CharactersAgree(c);
    UnheardSnoc(u, c);
  }

  /** What a name leaves: the letters heard are its domain. */
  predicate Named(k: Core, t: string, n: Core) {
    && n == k.(state := WwwState(t), domain := n.domain, buf := k.buf + t) && (n.domain != "" <==> NameHeard(t))
  }

  lemma FirstNamed(cfg: Config, k: Core, c: char)
    requires k.state == InPrefix(CheckWww) && k.domain == "" && (Letter(c) || Digit(c))
    ensures Named(k, [c], PlainStep(cfg, k, c))
  {
    hide PlainStep;
    assert [c][..1] == [c];
    if LowerCase(c) == 'w' {
      WwwFirst(cfg, k, c);
    } else {
      NamedFirst(cfg, k, c);
      assert [c][0] != '/' && [c][0] != '?';
    }
  }

  lemma {:induction false} NameRead(cfg: Config, k: Core, t: string)
    requires k.state == InPrefix(CheckWww) && k.domain == "" && !k.protocol.NoProtocol? && OneName(k.protocol, t)
    ensures Named(k, t, PlainFeed(cfg, k, t))
  {
    hide PlainStep, Letter, Digit, NameSign, Www, NameHeard;
    var u, c := t[..|t| - 1], t[|t| - 1];
    assert u + [c] == t;
    if u == "" {
      assert t == [c];
      PlainFeedOne(cfg, k, c);
      FirstNamed(cfg, k, c);
    } else {
      NameRead(cfg, k, u);
      HeardSnoc(u, c);
      UnheardSnoc(u, c);
      var n := PlainFeed(cfg, k, u);
      assert k.buf + t == (k.buf + u) + [c];
      SignIsUrlChar(k.protocol, c);
      if Www(u) {
        WwwChar(cfg, n, u, c);
        WwwUnheard(u);
      } else {
        NameChar(cfg, n, c);
      }
    }
  }

  lemma SignIsUrlChar(p: Protocol, c: char)
    requires NameSign(p, c)
    ensures UrlChar(c) && c != '.' && c != '@'
  {
  }

  lemma WwwUnheard(u: string)
    requires Www(u)
    ensures !NameHeard(u)
  {
    assert u[..|u|] == u;
  }

  /** What should be reported of a text that begins with a scheme. */
  predicate SchemeTold(p: Protocol, text: string, u: Url) {
    && WithoutTrailing(text, u.original) && u.protocol == p && u.url == u.original
    && u.kind == KindOfExtension(NoExtension, p) && u.extension == NoExtension
  }

  lemma NameEnds(cfg: Config, k: Core, t: string, n: Core, c: char)
    requires Named(k, t, n) && t != "" && !UrlChar(c) && !n.protocol.NoProtocol?
    ensures PlainOutcome(cfg, n, c) == if Www(t) then Restart else Save(n)
  {
    hide NameHeard, IsAllowable, SaveUrl;
    CharactersAgree(c);
    NoSign(c);
  }

  lemma NoSign(c: char)
    requires !UrlChar(c)
    ensures c !in ".:@/?" && LowerCase(c) != 'w'
  {
  }

  lemma NameSaved(cfg: Config, k: Core, t: string, n: Core)
    requires Named(k, t, n) && t != "" && !k.protocol.NoProtocol?
    requires !k.isEmail && k.extension.NoExtension? && k.needDomain
    ensures if NameHeard(t) then !Www(t) && Savable(cfg, n) else !SaveUrl(cfg, n).0
  {
    hide NameHeard, TailLength, IsIpv4Segment;
    if Www(t) {
      WwwUnheard(t);
    }
  }

  lemma SchemedNamed(cfg: Config, p: Protocol, scheme: string, t: string)
    requires !p.NoProtocol? && Spells(scheme, SchemeName(p)) && Spoken(cfg, p) && OneName(p, t)
    ensures Named(Schemed(p, scheme + "://"), t, PlainFeed(cfg, Fresh(), scheme + "://" + t))
  {
    hide PlainFeed, Spells, Spoken, OneName, Named;
    SchemeRead(cfg, p, scheme);
    PlainFeedConcat(cfg, Fresh(), scheme + "://", t);
    NameRead(cfg, Schemed(p, scheme + "://"), t);
  }

  lemma NameTells(k: Core, p: Protocol, text: string, u: Url)
    requires Tells(k, u) && k.hasPrefix && k.protocol == p && k.extension.NoExtension? && k.buf == text
    ensures SchemeTold(p, text, u)
  {
  }

  /** One name behind a scheme, with slashes as they come, is reported before the first character that no
      URL has, unless too little of it is left behind letters taken for `www.`. */
  lemma OneNameFound(cfg: Config, p: Protocol, scheme: string, t: string, c: char)
    requires !p.NoProtocol? && Spells(scheme, SchemeName(p)) && Spoken(cfg, p) && OneName(p, t) && !UrlChar(c)
    ensures var text := scheme + "://" + t; var n := PlainFeed(cfg, Fresh(), text + [c]);
      if NameHeard(t) then n.report.Reported? && SchemeTold(p, text, n.report.found) else n == Fresh()
  {
    hide PlainFeed, PlainOutcome, Spells, Spoken, OneName, Savable, SaveUrl, Tells, SchemeTold, NameHeard, Www;
    var text, k := scheme + "://" + t, Schemed(p, scheme + "://");
    var n := PlainFeed(cfg, Fresh(), text);
    SchemedNamed(cfg, p, scheme, t);
    NotNothing(p, t);
    PlainFeedSnoc(cfg, Fresh(), text, c);
    NameEnds(cfg, k, t, n, c);
    NameSaved(cfg, k, t, n);
    if NameHeard(t) {
      SavedTells(cfg, n);
      NameTells(n, p, text, SaveUrl(cfg, n).1.report.found);
    }
  }

  lemma NotNothing(p: Protocol, t: string)
    requires OneName(p, t)
    ensures t != ""
  {
  }

  /** The same at the end of a text. */
  lemma OneNameAtEnd(cfg: Config, p: Protocol, scheme: string, t: string)
    requires !p.NoProtocol? && Spells(scheme, SchemeName(p)) && Spoken(cfg, p) && OneName(p, t)
    ensures var text := scheme + "://" + t; var r := SaveUrl(cfg, PlainFeed(cfg, Fresh(), text)).1.report;
      if NameHeard(t) then r.Reported? && SchemeTold(p, text, r.found) else r.NoUrl?
  {
    hide PlainFeed, Spells, Spoken, OneName, Savable, SaveUrl, Tells, SchemeTold, NameHeard, Www;
    var text, k := scheme + "://" + t, Schemed(p, scheme + "://");
    var n := PlainFeed(cfg, Fresh(), text);
    SchemedNamed(cfg, p, scheme, t);
    NotNothing(p, t);
    NameSaved(cfg, k, t, n);
    UnsavedSilent(cfg, n);
    if NameHeard(t) {
      SavedTells(cfg, n);
      NameTells(n, p, text, SaveUrl(cfg, n).1.report.found);
    }
  }

  lemma UnsavedSilent(cfg: Config, k: Core)
    ensures !SaveUrl(cfg, k).0 ==> SaveUrl(cfg, k).1.report == k.report
  {
    if !SaveUrl(cfg, k).0 {
      UnsavedReportsNothing(cfg, k);
    }
  }
}
