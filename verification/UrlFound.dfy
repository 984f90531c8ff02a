/** Which written URLs are found: told from the text, without the machine. */
module UrlsFound {
  import opened UrlTypes
  import opened UrlMachine
  import opened UrlInvariant
  import opened UrlReplay
  import opened UrlTexts
  import opened UrlPaths
  import opened UrlReading

  // ----- The host -----

  function BeforeFirst(w: Written): string { SchemeText(w) + LoginText(w.login) + w.www }

  /** The core when the first label of the host begins. */
  predicate AtFirst(w: Written, k: Core) {
    && k == Fresh().(state := k.state, protocol := w.protocol, hasPrefix := !w.protocol.NoProtocol?,
                     domain := k.domain, buf := BeforeFirst(w))
    && k.state == (if w.login.Login? then if w.login.password == "" then InHost(HostAt) else Host
                   else if w.www != "" then InPrefix(CheckFilesharing)
                   else if !w.protocol.NoProtocol? then InPrefix(CheckWww)
                   else Lookup)
    && (w.login.NoLogin? ==> k.domain == "")
  }

  lemma BeforeRead(cfg: Config, w: Written)
    requires WrittenOk(cfg, w)
    ensures AtFirst(w, PlainFeed(cfg, Fresh(), BeforeFirst(w)))
  {
    hide PlainFeed, LabelText, Www, PasswordText, Spells, HostVouched, RestShape, AllUrlChars, AllDigits, Spoken;
    var s, l := SchemeText(w), LoginText(w.login);
    PlainFeedConcat(cfg, Fresh(), s, l);
    PlainFeedConcat(cfg, Fresh(), s + l, w.www);
    NothingRead(cfg, Fresh());
    if !w.protocol.NoProtocol? {
      SchemeRead(cfg, w.protocol, w.scheme);
    }
    var k := PlainFeed(cfg, Fresh(), s);
    NothingRead(cfg, k);
    if w.login.Login? {
      LoginRead(cfg, k, w.login);
    }
    var m := PlainFeed(cfg, Fresh(), s + l);
    NothingRead(cfg, m);
    if w.www != "" {
      WwwRead(cfg, m, w.www);
    }
    assert s + "" == s && (s + l) + "" == s + l && "" + w.www == w.www;
  }

  lemma NothingRead(cfg: Config, k: Core)
    ensures PlainFeed(cfg, k, "") == k
  {
  }

  /** The first label and its dot. */
  lemma FirstRead(cfg: Config, w: Written, k: Core)
    requires WrittenOk(cfg, w) && AtFirst(w, k)
    ensures var n := PlainFeed(cfg, k, w.first + ".");
      && n == k.(state := InHost(HostDot), domain := n.domain, buf := k.buf + (w.first + "."))
      && (w.protocol.NoProtocol? && Digit(w.first[0]) ==> n.domain == w.first)
  {
    hide PlainFeed, PlainStep, LabelText, Www, PasswordText, Spells, HostVouched;
    hide RestShape, AllUrlChars, AllDigits, Spoken;
    if k.state.Lookup? {
      assert BeforeFirst(w) == "";
      assert k == Fresh();
      BareFirst(cfg, w.first);
      assert "" + (w.first + ".") == w.first + ".";
    } else {
      if k.state == InHost(HostAt) {
        AtLabel(cfg, k, w.first);
      } else {
        HostLabel(cfg, k, w.first);
      }
      assert w.first + ['.'] == w.first + ".";
      PlainFeedSnoc(cfg, k, w.first, '.');
      DotRead(cfg, PlainFeed(cfg, k, w.first));
      assert (k.buf + w.first) + ['.'] == k.buf + (w.first + ".");
      assert "" + w.first == w.first;
    }
  }

  /** The core behind the host. */
  predicate AtHost(cfg: Config, w: Written, k: Core)
    requires w.labels != []
  {
    && k == Fresh().(state := HostN, protocol := w.protocol, hasPrefix := !w.protocol.NoProtocol?,
                     domain := k.domain, segments := k.segments, ipv4 := k.ipv4, buf := HostPart(w))
    && k.domain == w.labels[|w.labels| - 1] && k.segments == |w.labels| + 1 && DomainAccepted(cfg, k)
    && (w.protocol.NoProtocol? && ThreeNumbers(w) ==> k.ipv4 == 4)
  }

  lemma HostRead(cfg: Config, w: Written)
    requires WrittenOk(cfg, w)
    ensures w.labels != [] && AtHost(cfg, w, PlainFeed(cfg, Fresh(), HostPart(w)))
  {
    hide PlainFeed, LabelText, Www, PasswordText, Spells, RestShape, AllUrlChars;
    hide AllDigits, Spoken, DomainAccepted, Numbers;
    var p, f, j := BeforeFirst(w), w.first + ".", Joined(w.labels);
    BeforeRead(cfg, w);
    var k := PlainFeed(cfg, Fresh(), p);
    FirstRead(cfg, w, k);
    var m := PlainFeed(cfg, k, f);
    PlainFeedConcat(cfg, Fresh(), p, f);
    PlainFeedConcat(cfg, Fresh(), p + f, j);
    LaterLabels(cfg, m, w.labels);
    JoinedText(w.labels);
    assert HostPart(w) == (p + f) + j;
    HostAccepted(cfg, w, m);
  }

  lemma LowerSame(s: string)
    ensures Lower(s) == InLowerCase(s)
  {
    forall i | 0 <= i < |s|
      ensures ToLower(s[i]) == LowerCase(s[i])
    {
      CharactersAgree(s[i]);
    }
  }

  lemma NumberIsSegment(s: string)
    requires SmallNumber(s)
    ensures IsIpv4Segment(s) && Digit(s[0])
  {
  }

  lemma HostAccepted(cfg: Config, w: Written, m: Core)
    requires WrittenOk(cfg, w) && m.protocol == w.protocol && m.segments == 1 && m.ipv4 == 1
    requires w.protocol.NoProtocol? && Digit(w.first[0]) ==> m.domain == w.first
    ensures DomainAccepted(cfg, Labelled(m, w.labels))
    ensures w.protocol.NoProtocol? && ThreeNumbers(w) ==> Labelled(m, w.labels).ipv4 == 4
  {
    hide Www, PasswordText, Spells, RestShape, AllUrlChars, AllDigits, Spoken;
    hide IsIpv4Segment, SmallNumber, Lower, InLowerCase;
    var last := w.labels[|w.labels| - 1];
    assert LabelText(last);
    LowerSame(last);
    if w.protocol.NoProtocol? && ThreeNumbers(w) {
      NumberIsSegment(w.first);
      NumberIsSegment(w.labels[0]);
      NumberIsSegment(w.labels[1]);
      FourNumbers(w.first, w.labels);
    }
  }

  lemma FourNumbers(first: string, labels: seq<string>)
    requires |labels| == 3 && IsIpv4Segment(first) && IsIpv4Segment(labels[0]) && IsIpv4Segment(labels[1])
    ensures Numbers(first, labels) == 3
  {
    hide IsIpv4Segment;
    var two := labels[..2];
    var one := two[..1];
    assert labels[..3] == labels && two[0] == labels[0] && one[..0] == [];
    assert Numbers(first, one[..0]) == 0;
    assert Numbers(first, one) == 1;
    assert Numbers(first, two) == 2;
  }

  // ----- The port and the rest -----

  /** The core behind the whole URL. */
  predicate AtEnd(cfg: Config, w: Written, k: Core) {
    && k == Fresh().(state := k.state, protocol := w.protocol, hasPrefix := !w.protocol.NoProtocol?, domain := k.domain,
                     segments := k.segments, ipv4 := k.ipv4, extension := k.extension, buf := Text(w))
    && k.segments > 1 && DomainAccepted(cfg, k) && k.extension == RestShape(w).extension
    && (if w.rest == "" then k.state == if w.port == "" then HostN else InHost(Port)
        else if w.rest == "/" && w.port != "" then k.state == InPath(PortSlash)
        else Stands(RestShape(w), k))
  }

  lemma HostNSigns(cfg: Config, k: Core)
    requires k.state.HostN? && !k.isEmail && DomainAccepted(cfg, k)
    ensures PlainStep(cfg, k, ':') == k.(state := InHost(HostColon), buf := k.buf + [':'])
    ensures PlainStep(cfg, k, '/') == k.(state := InPath(HostSlash), buf := k.buf + ['/'])
    ensures PlainStep(cfg, k, '?') == k.(state := InPath(Query), buf := k.buf + ['?'])
    ensures PlainStep(cfg, k, '#') == k.(state := InPath(Query), buf := k.buf + ['#'])
  {
    hide ProtocolStep, HostStep, HostPartStep, PathStep, ExtensionStep, IdStep, SaveUrl, PrefixStep, Accepted;
  }

  lemma PortSlashRead(cfg: Config, k: Core)
    requires k.state == InHost(Port) && DomainAccepted(cfg, k)
    ensures PlainStep(cfg, k, '/') == k.(state := InPath(PortSlash), buf := k.buf + ['/'])
  {
    hide HostStep, Accepted;
    PartStep(cfg, k, '/');
  }

  lemma PortPathRead(cfg: Config, k: Core, c: char)
    requires k.state == InPath(PortSlash) && (Letter(c) || Digit(c))
    ensures PlainStep(cfg, k, c) == k.(state := InPath(Path), buf := k.buf + [c])
  {
    hide ProtocolStep, HostStep, HostNStep, HostPartStep, ExtensionStep, IdStep;
    hide SaveUrl, PrefixStep, Accepted, IsAllowable;
    CharactersAgree(c);
  }

  lemma PortPartRead(cfg: Config, w: Written, k: Core)
    requires w.port != "" && AllDigits(w.port) && k.state.HostN? && !k.isEmail && DomainAccepted(cfg, k)
    ensures PlainFeed(cfg, k, PortPart(w)) == k.(state := InHost(Port), buf := k.buf + PortPart(w))
  {
    hide PlainStep, PlainFeed, DomainAccepted, AllDigits;
    assert PortPart(w) == [':'] + w.port;
    PlainFeedConcat(cfg, k, [':'], w.port);
    PlainFeedOne(cfg, k, ':');
    HostNSigns(cfg, k);
    PortRead(cfg, PlainStep(cfg, k, ':'), w.port);
    assert (k.buf + [':']) + w.port == k.buf + PortPart(w);
  }

  lemma RestIsShape(cfg: Config, w: Written)
    requires WrittenOk(cfg, w) && w.port == "" && w.rest != ""
    ensures RestShape(w) == ShapeAfter(StartShape(w.rest[0]), w.rest[1..]) && !RestShape(w).ending.Broken?
    ensures w.rest[0] == '/' || w.rest[0] == '?' || w.rest[0] == '#'
  {
    hide NextShape, LabelText, Www, PasswordText, Spells, HostVouched, AllDigits;
    if w.rest == "/" {
      assert w.rest[1..] == "";
    }
  }

  lemma StartStands(cfg: Config, k: Core, c: char)
    requires k.state.HostN? && !k.isEmail && k.extension.NoExtension? && DomainAccepted(cfg, k)
    requires c == '/' || c == '?' || c == '#'
    ensures var m := PlainStep(cfg, k, c); Stands(StartShape(c), m) && m == k.(state := m.state, buf := k.buf + [c])
  {
    hide PlainStep, DomainAccepted;
    HostNSigns(cfg, k);
  }

  /** A path or a query right behind the host. */
  lemma RestRead(cfg: Config, w: Written, k: Core)
    requires WrittenOk(cfg, w) && w.port == "" && w.rest != ""
    requires k.state.HostN? && !k.isEmail && k.extension.NoExtension? && DomainAccepted(cfg, k)
    ensures var n := PlainFeed(cfg, k, w.rest);
      Stands(RestShape(w), n) && n == k.(state := n.state, extension := n.extension, buf := k.buf + w.rest)
  {
    hide PlainStep, PlainFeed, DomainAccepted, WrittenOk, RestShape, Stands, StartShape, ShapeAfter;
    var c, rest := w.rest[0], w.rest[1..];
    assert w.rest == [c] + rest;
    RestIsShape(cfg, w);
    StartStands(cfg, k, c);
    PlainFeedOne(cfg, k, c);
    PlainFeedConcat(cfg, k, [c], rest);
    PathRead(cfg, StartShape(c), PlainStep(cfg, k, c), rest);
    assert (k.buf + [c]) + rest == k.buf + w.rest;
  }

  lemma PortPathBegins(cfg: Config, k: Core, c: char)
    requires k.state == InHost(Port) && DomainAccepted(cfg, k) && (Letter(c) || Digit(c))
    ensures PlainFeed(cfg, k, "/") == k.(state := InPath(PortSlash), buf := k.buf + "/")
    ensures PlainFeed(cfg, k, "/" + [c]) == k.(state := InPath(Path), buf := k.buf + ("/" + [c]))
  {
    hide PlainStep, PlainFeed, DomainAccepted;
    assert ['/'] == "/";
    PortSlashRead(cfg, k);
    PlainFeedOne(cfg, k, '/');
    PlainFeedSnoc(cfg, k, "/", c);
    PortPathRead(cfg, PlainStep(cfg, k, '/'), c);
    assert (k.buf + ['/']) + [c] == k.buf + ("/" + [c]);
  }

  lemma PortRest(cfg: Config, w: Written)
    requires WrittenOk(cfg, w) && w.port != "" && w.rest != ""
    ensures w.rest[0] == '/' && (|w.rest| > 1 ==> Letter(w.rest[1]) || Digit(w.rest[1])) && !RestShape(w).ending.Broken?
  {
    hide LabelText, Www, PasswordText, Spells, HostVouched, AllDigits, RestShape;
  }

  /** A path behind a port. */
  lemma PortRestRead(cfg: Config, w: Written, k: Core)
    requires WrittenOk(cfg, w) && w.port != "" && w.rest != ""
    requires k.state == InHost(Port) && k.extension.NoExtension? && DomainAccepted(cfg, k)
    ensures var n := PlainFeed(cfg, k, w.rest);
      && n == k.(state := n.state, extension := n.extension, buf := k.buf + w.rest)
      && if w.rest == "/" then n.state == InPath(PortSlash) && n.extension.NoExtension? else Stands(RestShape(w), n)
  {
    hide PlainFeed, DomainAccepted, WrittenOk, ShapeAfter, Stands;
    PortRest(cfg, w);
    if |w.rest| == 1 {
      assert w.rest == "/";
      PortPathBegins(cfg, k, 'a');
    } else {
      PortTailRead(cfg, k, w.rest);
    }
  }

  lemma PortTailRead(cfg: Config, k: Core, s: string)
    requires k.state == InHost(Port) && k.extension.NoExtension? && DomainAccepted(cfg, k)
    requires |s| > 1 && s[0] == '/' && (Letter(s[1]) || Digit(s[1]))
    requires !ShapeAfter(Shape(Plain, NoExtension), s[2..]).ending.Broken?
    ensures var n := PlainFeed(cfg, k, s);
      && n == k.(state := n.state, extension := n.extension, buf := k.buf + s)
      && Stands(ShapeAfter(Shape(Plain, NoExtension), s[2..]), n)
  {
    hide PlainFeed, DomainAccepted, ShapeAfter, Letter, Digit;
    var c, tail := s[1], s[2..];
    assert s == ("/" + [c]) + tail;
    PortPathBegins(cfg, k, c);
    PlainFeedConcat(cfg, k, "/" + [c], tail);
    PathRead(cfg, Shape(Plain, NoExtension), PlainFeed(cfg, k, "/" + [c]), tail);
    assert (k.buf + ("/" + [c])) + tail == k.buf + s;
  }

  lemma UrlRead(cfg: Config, w: Written)
    requires WrittenOk(cfg, w)
    ensures AtEnd(cfg, w, PlainFeed(cfg, Fresh(), Text(w)))
  {
    hide PlainFeed, WrittenOk, DomainAccepted, RestShape, Stands;
    var h := HostPart(w);
    HostRead(cfg, w);
    var k := PlainFeed(cfg, Fresh(), h);
    PlainFeedConcat(cfg, Fresh(), h, PortPart(w));
    PlainFeedConcat(cfg, Fresh(), h + PortPart(w), w.rest);
    DigitsOk(cfg, w);
    NothingRead(cfg, k);
    var m := PlainFeed(cfg, k, PortPart(w));
    if w.port == "" {
      assert h + PortPart(w) == h;
    } else {
      PortPartRead(cfg, w, k);
    }
    assert DomainAccepted(cfg, m) by { SameDomain(cfg, k, m); }
    NothingRead(cfg, m);
    if w.rest == "" {
      assert Text(w) == h + PortPart(w);
    } else if w.port == "" {
      RestRead(cfg, w, m);
    } else {
      PortRestRead(cfg, w, m);
    }
    RestExtension(w, PlainFeed(cfg, m, w.rest));
    SameDomain(cfg, k, PlainFeed(cfg, m, w.rest));
  }

  lemma DigitsOk(cfg: Config, w: Written)
    requires WrittenOk(cfg, w)
    ensures AllDigits(w.port)
  {
  }

  lemma SameDomain(cfg: Config, k: Core, m: Core)
    requires DomainAccepted(cfg, k)
    requires m.domain == k.domain && m.protocol == k.protocol && m.segments == k.segments && m.ipv4 == k.ipv4
    ensures DomainAccepted(cfg, m)
  {
  }

  lemma RestExtension(w: Written, n: Core)
    ensures Stands(RestShape(w), n) ==> n.extension == RestShape(w).extension
    ensures w.rest == "" || w.rest == "/" ==> RestShape(w).extension.NoExtension?
  {
  }

  // ----- The end -----

  lemma HostEnds(cfg: Config, k: Core, c: char)
    requires k.state.HostN? && DomainAccepted(cfg, k)
    ensures Blank(c) || c in ",!\"'`>]);" ==> PlainOutcome(cfg, k, c) == Save(k)
    ensures !(Letter(c) || Digit(c) || c in "-.:@/?#" || Blank(c) || c in ",!\"'`>]);") ==>
      PlainOutcome(cfg, k, c) == Restart
  {
    hide Accepted, IsAllowable, UrlChar;
    CharactersAgree(c);
  }

  lemma PortEnds(cfg: Config, k: Core, c: char)
    ensures k.state == InHost(Port) && !UrlChar(c) ==> PlainOutcome(cfg, k, c) == Restart
    ensures k.state == InPath(PortSlash) && Blank(c) ==> PlainOutcome(cfg, k, c) == Save(k)
    ensures k.state == InPath(PortSlash) && !Blank(c) && !Letter(c) && !Digit(c) ==> PlainOutcome(cfg, k, c) == Restart
  {
    hide Accepted, IsAllowable;
    CharactersAgree(c);
    BlankNoUrlChar(c);
    if Blank(c) {
      BlankNoDigit(c);
    }
  }

  lemma BlankNoDigit(c: char)
    requires Blank(c)
    ensures !Digit(c) && !Letter(c) && c != '@' && c != '/'
  {
  }

  /** Behind a URL: the characters that end it save it, and those with which it does not go on drop it. */
  lemma EndOutcome(cfg: Config, w: Written, k: Core, c: char)
    requires AtEnd(cfg, w, k)
    ensures EndsAt(w, c) ==> PlainOutcome(cfg, k, c) == Save(k)
    ensures !EndsAt(w, c) && !GoesOn(w, c) ==> PlainOutcome(cfg, k, c) == Restart
  {
    hide PlainOutcome, DomainAccepted, Text, RestShape, UrlChar, Blank, NextShape, Letter, Digit;
    if w.rest == "" {
      if w.port != "" {
        PortEnds(cfg, k, c);
      } else {
        HostEnds(cfg, k, c);
      }
    } else if w.rest == "/" && w.port != "" {
      PortEnds(cfg, k, c);
    } else {
      SlashShape(w);
      InPathState(cfg, RestShape(w), k);
      EndsAtPath(w, c);
      if EndsPath(RestShape(w).ending, c) {
        PathEnds(cfg, RestShape(w), k, c);
      } else if !GoesOn(w, c) {
        PathBreaks(cfg, RestShape(w), k, c);
      }
    }
  }

  lemma SlashShape(w: Written)
    ensures w.rest == "/" ==> RestShape(w).ending.Slashes?
  {
  }

  lemma EndsAtPath(w: Written, c: char)
    requires w.rest != "" && !RestShape(w).ending.Broken?
    ensures EndsAt(w, c) ==> EndsPath(RestShape(w).ending, c)
    ensures EndsPath(RestShape(w).ending, c) && !EndsAt(w, c) ==> w.rest == "/"
  {
    hide Blank;
  }

  lemma InPathState(cfg: Config, s: Shape, k: Core)
    requires Stands(s, k)
    ensures k.state.InPath? || k.state.InExtension?
    ensures !s.ending.Broken?
  {
  }

  lemma EndSavable(cfg: Config, w: Written, k: Core)
    requires AtEnd(cfg, w, k)
    ensures Savable(cfg, k)
  {
    hide DomainAccepted, Text, RestShape;
    if w.rest != "" && !(w.rest == "/" && w.port != "") {
      InPathState(cfg, RestShape(w), k);
    }
  }

  lemma TellsExpected(cfg: Config, w: Written, k: Core, u: Url)
    requires AtEnd(cfg, w, k) && Tells(k, u)
    ensures Expected(w, u)
  {
    hide DomainAccepted, Text, RestShape, WithoutTrailing, Stands;
  }

  /** Every written URL, read from the start and followed by a character at which it ends, is
      reported as expected. */
  lemma FoundAtEnd(cfg: Config, w: Written, c: char)
    requires WrittenOk(cfg, w) && EndsAt(w, c)
    ensures var r := PlainFeed(cfg, Fresh(), Text(w) + [c]).report; r.Reported? && Expected(w, r.found)
  {
    hide PlainFeed, PlainOutcome, WrittenOk, EndsAt, AtEnd, Savable, SaveUrl, Tells, Expected;
    UrlRead(cfg, w);
    var k := PlainFeed(cfg, Fresh(), Text(w));
    EndOutcome(cfg, w, k, c);
    EndSavable(cfg, w, k);
    SavedTells(cfg, k);
    NotComparing(cfg, w, k);
    PlainFeedSnoc(cfg, Fresh(), Text(w), c);
    TellsExpected(cfg, w, k, SaveUrl(cfg, k).1.report.found);
  }

  lemma NotComparing(cfg: Config, w: Written, k: Core)
    requires AtEnd(cfg, w, k)
    ensures !Comparing(k.state)
  {
    hide DomainAccepted, Text, RestShape;
    if w.rest != "" && !(w.rest == "/" && w.port != "") {
      InPathState(cfg, RestShape(w), k);
    }
  }

  /** And it is dropped at a character with which it neither ends nor goes on. */
  lemma DroppedOtherwise(cfg: Config, w: Written, c: char)
    requires WrittenOk(cfg, w) && !EndsAt(w, c) && !GoesOn(w, c)
    ensures PlainFeed(cfg, Fresh(), Text(w) + [c]) == Fresh()
  {
    hide PlainFeed, PlainOutcome, WrittenOk, EndsAt, AtEnd, GoesOn;
    UrlRead(cfg, w);
    var k := PlainFeed(cfg, Fresh(), Text(w));
    EndOutcome(cfg, w, k, c);
    NotComparing(cfg, w, k);
    PlainFeedSnoc(cfg, Fresh(), Text(w), c);
  }

  /** Such is every blank behind a port or inside the beginning of a file extension. */
  lemma DroppedAtBlank(cfg: Config, w: Written, c: char)
    requires WrittenOk(cfg, w) && Blank(c)
    requires if w.rest == "" then w.port != "" else RestShape(w).ending.Inside?
    ensures PlainFeed(cfg, Fresh(), Text(w) + [c]) == Fresh()
  {
    hide PlainFeed, WrittenOk, RestShape, Text;
    BlankNoUrlChar(c);
    SlashShape(w);
    DroppedOtherwise(cfg, w, c);
  }

  /** At the end of a text every written URL is reported as expected. */
  lemma FoundAtTextEnd(cfg: Config, w: Written)
    requires WrittenOk(cfg, w)
    ensures var r := SaveUrl(cfg, PlainFeed(cfg, Fresh(), Text(w))).1.report; r.Reported? && Expected(w, r.found)
  {
    hide PlainFeed, WrittenOk, AtEnd, Savable, SaveUrl, Tells, Expected;
    UrlRead(cfg, w);
    var k := PlainFeed(cfg, Fresh(), Text(w));
    EndSavable(cfg, w, k);
    SavedTells(cfg, k);
    TellsExpected(cfg, w, k, SaveUrl(cfg, k).1.report.found);
  }
}
