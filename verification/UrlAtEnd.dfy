/** Concrete texts on which the parser does not do what one would expect: at their end, or
    because the domain of an e-mail address is not looked at. */
module UrlAtEnd {
  import opened UrlTypes
  import opened UrlMachine
  import opened UrlInvariant
  import opened UrlReplay
  import opened UrlParsing
  import opened UrlRuns
  import opened UrlShapes
  import opened UrlEnds
  import opened UrlEmails

  const ICQ := Item(ICQ_COM, FilesharingId, 6)

  /** A parser that looks for icq.com/files/ only. */
  function IcqConfig(tld: string -> bool): Config { Config([ICQ], false, false, tld) }

  lemma IcqWellShaped(tld: string -> bool)
    requires tld("com") && tld("net") && tld("ru")
    ensures Inv(IcqConfig(tld), NewParser(IcqConfig(tld)))
  {
    hide WellShapedItem;
    NamedItemsWellShaped(tld);
  }

  // ----- A fixed URL, read to its end -----

  /** The parser after the first `n` characters of the fixed URL: the comparison is past its
      safe position from the seventh on. */
  function Compared(n: nat): Parser
    requires n < 14
  {
    Parser(
      Fresh().(state := if n <= 6 then Compare else CompareSafe, buf := ICQ_COM[..n]),
      Comparison(ICQ_COM[..n], n, [true], Lookup, LookupWithoutFixed, 6))
  }

  lemma FirstCompared(tld: string -> bool)
    ensures Step(IcqConfig(tld), NewParser(IcqConfig(tld)), 'i') == Compared(1)
  {
    var cfg := IcqConfig(tld);
    assert cfg.items[0].str[0] == 'i';
    assert InCompareSet(cfg.items, 'i');
    var cmp := Comparison("", 0, seq(1, _ => false), Lookup, LookupWithoutFixed, 0);
    var q := ScanItems(cfg.items, cmp, 'i', 1);
    assert ScanItems(cfg.items, cmp, 'i', 0) == Scan(cmp.matched, false, true, -1, Lookup);
    assert cmp.matched[0 := true] == [true];
    assert q.partial && !q.ended && q.safe == 6 && q.matched == [true];
    assert q == Scan([true], true, false, 6, Lookup);
    assert ICQ_COM[..1] == "i" && "" + ['i'] == "i";
  }

  lemma ScanIcq(tld: string -> bool, n: nat)
    requires 1 <= n < 14
    ensures ScanItems([ICQ], Compared(n).cmp, ICQ_COM[n], 1)
      == if n < 13 then Scan([true], true, false, 6, Lookup) else Scan([true], true, true, 6, FilesharingId)
    ensures ICQ_COM[..n] + [ICQ_COM[n]] == ICQ_COM[..n + 1]
  {
    var c := ICQ_COM[n];
    assert ScanItems([ICQ], Compared(n).cmp, c, 0) == Scan([true], false, true, -1, Lookup);
    assert IsEqual(c, ICQ.str[n]) && Considered([ICQ], [true], n, 0);
    assert |ICQ_COM| == 14 && [true][0 := true] == [true];
  }

  lemma NextCompared(tld: string -> bool, n: nat)
    requires 1 <= n < 13
    ensures Step(IcqConfig(tld), Compared(n), ICQ_COM[n]) == Compared(n + 1)
  {
    hide ScanItems;
    ScanIcq(tld, n);
  }

  lemma {:induction false} ComparedSoFar(tld: string -> bool, n: nat)
    requires Inv(IcqConfig(tld), NewParser(IcqConfig(tld))) && 1 <= n < 14
    ensures Feed(IcqConfig(tld), NewParser(IcqConfig(tld)), ICQ_COM[..n]) == Compared(n)
  {
    hide Step, Inv;
    var s := ICQ_COM[..n];
    assert s[..n - 1] == ICQ_COM[..n - 1];
    if n == 1 {
      FirstCompared(tld);
      assert s[..0] == "" && s[0] == 'i';
    } else {
      ComparedSoFar(tld, n - 1);
      NextCompared(tld, n - 1);
    }
  }

  // ----- A shared file's id, at the end of the text and before a space -----

  function IdCore(id: string): Core {
    Fresh().(state := FilesharingId, buf := ICQ_COM + id, idLength := |id|)
  }

  lemma Completed(tld: string -> bool)
    ensures Step(IcqConfig(tld), Compared(13), '/').core == IdCore("")
  {
    hide ScanItems;
    ScanIcq(tld, 13);
    assert ICQ_COM[..14] == ICQ_COM + "";
  }

  lemma IdOneMore(cfg: Config, p: Parser, id: string, c: char)
    requires p.core == IdCore(id) && IsIdChar(c)
    ensures ComparisonShape(cfg, p) && Step(cfg, p, c).core == IdCore(id + [c])
  {
    assert (ICQ_COM + id) + [c] == ICQ_COM + (id + [c]);
  }

  lemma {:induction false} IdRead(tld: string -> bool, id: string)
    requires Inv(IcqConfig(tld), NewParser(IcqConfig(tld)))
    requires forall i :: 0 <= i < |id| ==> IsIdChar(id[i])
    ensures Feed(IcqConfig(tld), NewParser(IcqConfig(tld)), ICQ_COM + id).core == IdCore(id)
  {
    hide Step, Inv, Feed, IdCore;
    var cfg := IcqConfig(tld);
    var p := NewParser(cfg);
    if id == "" {
      ComparedSoFar(tld, 13);
      Completed(tld);
      FeedSnoc(cfg, p, ICQ_COM[..13], '/');
      assert ICQ_COM[..13] + ['/'] == ICQ_COM + id;
    } else {
      var u, c := id[..|id| - 1], id[|id| - 1];
      IdRead(tld, u);
      FeedSnoc(cfg, p, ICQ_COM + u, c);
      assert u + [c] == id && (ICQ_COM + u) + [c] == ICQ_COM + id;
      IdOneMore(cfg, Feed(cfg, p, ICQ_COM + u), u, c);
    }
  }

  predicate SharedFile(k: Core) { k.report.Reported? && k.report.found.kind.Filesharing? }

  /** A link to a shared file counts from 32 characters of its id on when a space follows,
      but only from 33 on at the end of the text. */
  lemma SharedFileLink(tld: string -> bool, id: string)
    requires tld("com") && tld("net") && tld("ru")
    requires forall i :: 0 <= i < |id| ==> IsIdChar(id[i])
    ensures var cfg := IcqConfig(tld); Inv(cfg, NewParser(cfg))
    ensures var cfg := IcqConfig(tld); var q := Feed(cfg, NewParser(cfg), ICQ_COM + id);
      && (SharedFile(Finish(cfg, q).core) <==> |id| >= 33)
      && (SharedFile(Step(cfg, q, ' ').core) <==> |id| >= 32)
  {
    hide Step, Inv, Feed, Finish;
    IcqWellShaped(tld);
    IdRead(tld, id);
    FilesharingIdLengths(IcqConfig(tld), Feed(IcqConfig(tld), NewParser(IcqConfig(tld)), ICQ_COM + id));
  }

  // ----- "icq.co": a site missed, or one made up -----

  /** A core of the plain parser, given by the fields that matter here. */
  function Reading(state: State, protocol: Protocol, buf: string, domain: string, segments: int): Core {
    Fresh().(state := state, protocol := protocol, buf := buf, domain := domain, segments := segments)
  }

  lemma PlainIcq(cfg: Config)
    requires !cfg.biz && !cfg.dit
    ensures PlainStep(cfg, Fresh(), 'i') == Reading(InProtocol(T1), Icq, "i", "", 1)
    ensures PlainStep(cfg, Reading(InProtocol(T1), Icq, "i", "", 1), 'c')
      == Reading(InProtocol(C), Icq, "ic", "", 1)
  {
    assert "" + ['i'] == "i" && "i" + ['c'] == "ic";
  }

  lemma PlainDot(cfg: Config)
    requires !cfg.biz && !cfg.dit
    ensures PlainStep(cfg, Reading(InProtocol(C), Icq, "ic", "", 1), 'q')
      == Reading(InProtocol(Q), Icq, "icq", "", 1)
    ensures PlainStep(cfg, Reading(InProtocol(Q), Icq, "icq", "", 1), '.')
      == Reading(InHost(HostDot), NoProtocol, "icq.", "", 1)
  {
    assert "ic" + ['q'] == "icq" && "icq" + ['.'] == "icq.";
  }

  lemma PlainDomain(cfg: Config)
    ensures PlainStep(cfg, Reading(InHost(HostDot), NoProtocol, "icq.", "", 1), 'c')
      == Reading(HostN, NoProtocol, "icq.c", "c", 2)
    ensures PlainStep(cfg, Reading(HostN, NoProtocol, "icq.c", "c", 2), 'o')
      == Reading(HostN, NoProtocol, "icq.co", "co", 2)
  {
    assert "icq." + ['c'] == "icq.c" && "icq.c" + ['o'] == "icq.co" && "c" + ['o'] == "co";
  }

  /** What a parser without fixed URLs has read. */
  lemma PlainRead(cfg: Config)
    requires !cfg.biz && !cfg.dit
    ensures PlainFeed(cfg, Fresh(), "icq.co") == Reading(HostN, NoProtocol, "icq.co", "co", 2)
  {
    hide PlainStep, PlainFeed, Reading;
    PlainIcq(cfg);
    PlainDot(cfg);
    PlainDomain(cfg);
    var f := Fresh();
    assert ['i'] == "i" && "i" + ['c'] == "ic" && "ic" + ['q'] == "icq" && "icq" + ['.'] == "icq.";
    assert "icq." + ['c'] == "icq.c" && "icq.c" + ['o'] == "icq.co";
    PlainFeedOne(cfg, f, 'i');
    PlainFeedSnoc(cfg, f, "i", 'c');
    PlainFeedSnoc(cfg, f, "ic", 'q');
    PlainFeedSnoc(cfg, f, "icq", '.');
    PlainFeedSnoc(cfg, f, "icq.", 'c');
    PlainFeedSnoc(cfg, f, "icq.c", 'o');
  }

  /** Without fixed URLs the text is a site exactly when `co` is a top-level domain. */
  lemma PlainSite(cfg: Config)
    requires !cfg.biz && !cfg.dit
    ensures var r := SaveUrl(cfg, PlainFeed(cfg, Fresh(), "icq.co")).1.report;
      if cfg.tld("co") then r.Reported? && r.found.original == "icq.co" && r.found.kind.Site? else r.NoUrl?
  {
    hide PlainStep, PlainFeed;
    PlainRead(cfg);
    assert Lower("co") == "co";
    assert TailLength("icq.co") == 0;
    assert "icq.co"[..6] == "icq.co";
  }

  /** With `co` a top-level domain a parser without fixed URLs reports the site "icq.co" at the
      end of the text, one that looks for icq.com/files/ does not. */
  lemma SiteMissedAtEnd(tld: string -> bool)
    requires tld("com") && tld("net") && tld("ru") && tld("co")
    ensures var cfg := IcqConfig(tld);
      && Inv(cfg, NewParser(cfg))
      && Finish(cfg, Feed(cfg, NewParser(cfg), "icq.co")).core.report.NoUrl?
      && SaveUrl(cfg, PlainFeed(cfg, Fresh(), "icq.co")).1.report.Reported?
  {
    hide PlainFeed, Feed, SaveUrl, Finish;
    var cfg := IcqConfig(tld);
    IcqWellShaped(tld);
    ComparedSoFar(tld, 6);
    assert ICQ_COM[..6] == "icq.co";
    ComparisonAtEnd(cfg, Feed(cfg, NewParser(cfg), "icq.co"));
    PlainSite(cfg);
  }

  /** The built-in fixed URLs of a client whose files are kept on icq.ru. */
  function IcqRuConfig(tld: string -> bool): Config { Config(BuiltInItems("icq.ru", false), false, false, tld) }

  lemma IcqRuItems()
    ensures BuiltInItems("icq.ru", false)
      == [Item("icq.ru/get/", FilesharingId, 5), ICQ, Item(CHAT_MY_COM, FilesharingId, 10)]
  {
    assert "icq.ru" + GET_SUFFIX == "icq.ru/get/";
  }

  /** That parser after the first `n` characters of "icq.co". At the fifth character the first
      fixed URL fails, but its safe position is kept for one more character. */
  function IcqRuCompared(n: nat): Parser
    requires 1 <= n <= 6
  {
    Parser(
      Fresh().(state := if n <= 5 then Compare else CompareSafe, buf := "icq.co"[..n]),
      Comparison("icq.co"[..n], n, [n <= 4, true, false], Lookup, LookupWithoutFixed, if n <= 5 then 5 else 6))
  }

  lemma IcqRuLetters(n: nat)
    requires n < 6
    ensures var c := "icq.co"[n];
      && (IsEqual(c, "icq.ru/get/"[n]) <==> n != 4 && n != 5) && IsEqual(c, ICQ_COM[n])
      && (n == 0 ==> !IsEqual(c, CHAT_MY_COM[0]))
    ensures "icq.co"[..n] + ["icq.co"[n]] == "icq.co"[..n + 1]
  {
    assert n == 0 || n == 1 || n == 2 || n == 3 || n == 4 || n == 5;
  }

  lemma ScanIcqRu(items: seq<Item>, cmp: Comparison, n: nat)
    requires items == [Item("icq.ru/get/", FilesharingId, 5), ICQ, Item(CHAT_MY_COM, FilesharingId, 10)]
    requires n < 6 && cmp.pos == n && cmp.ok.Lookup? && cmp.matched == [0 < n <= 4, 0 < n, false]
    ensures ScanItems(items, cmp, "icq.co"[n], 3)
      == Scan([n < 4, true, false], true, false, if n <= 4 then 5 else 6, Lookup)
  {
    hide IsEqual;
    IcqRuLetters(n);
    var c := "icq.co"[n];
    assert ScanItems(items, cmp, c, 0) == Scan(cmp.matched, false, true, -1, Lookup);
    var one, two := ScanItems(items, cmp, c, 1), ScanItems(items, cmp, c, 2);
    assert one == Scan([n < 4, 0 < n, false], n < 4, n > 4, if n <= 4 then 5 else -1, Lookup);
    assert two == Scan([n < 4, true, false], true, false, if n <= 4 then 5 else 6, Lookup);
  }

  lemma IcqRuNext(tld: string -> bool, n: nat)
    requires 1 <= n < 6
    ensures Step(IcqRuConfig(tld), IcqRuCompared(n), "icq.co"[n]) == IcqRuCompared(n + 1)
  {
    hide ScanItems;
    IcqRuItems();
    IcqRuLetters(n);
    ScanIcqRu(IcqRuConfig(tld).items, IcqRuCompared(n).cmp, n);
  }

  lemma IcqRuFirst(tld: string -> bool)
    ensures Step(IcqRuConfig(tld), NewParser(IcqRuConfig(tld)), 'i') == IcqRuCompared(1)
  {
    hide ScanItems;
    IcqRuItems();
    IcqRuLetters(0);
    var cfg := IcqRuConfig(tld);
    assert cfg.items[0].str[0] == 'i' && InCompareSet(cfg.items, 'i');
    var cmp := Comparison("", 0, seq(3, _ => false), Lookup, LookupWithoutFixed, 0);
    assert cmp.matched == [false, false, false];
    ScanIcqRu(cfg.items, cmp, 0);
    assert "" + ['i'] == "icq.co"[..1];
  }

  lemma {:induction false} IcqRuSoFar(tld: string -> bool, n: nat)
    requires Inv(IcqRuConfig(tld), NewParser(IcqRuConfig(tld))) && 1 <= n <= 6
    ensures Feed(IcqRuConfig(tld), NewParser(IcqRuConfig(tld)), "icq.co"[..n]) == IcqRuCompared(n)
  {
    hide Step, Inv;
    var s := "icq.co"[..n];
    assert s[..n - 1] == "icq.co"[..n - 1];
    if n == 1 {
      IcqRuFirst(tld);
      assert s[..0] == "" && s[0] == 'i';
    } else {
      IcqRuSoFar(tld, n - 1);
      IcqRuNext(tld, n - 1);
    }
  }

  lemma RuHost()
    ensures IsHost("icq", ["ru"])
  {
    hide IsLabel;
    Labels();
  }

  lemma IcqRuWellShaped(tld: string -> bool)
    requires tld("com") && tld("net") && tld("ru")
    ensures Inv(IcqRuConfig(tld), NewParser(IcqRuConfig(tld)))
  {
    hide WellShapedItem, HostText, IsHost;
    Labels();
    LowerCaseDomains();
    OneLabel("icq", "ru");
    assert "icq" + "." + "ru" == "icq.ru" && ["ru"][0] == "ru";
    RuHost();
    BuiltInsWellShaped(tld, "icq", ["ru"], false, false);
  }

  lemma SafeReports(cfg: Config, q: Parser)
    requires Inv(cfg, q) && q == IcqRuCompared(6)
    ensures var r := Finish(cfg, q).core.report; r.Reported? && r.found.kind.Site? && r.found.original == "icq.co"
  {
    hide Finish, Inv;
    ComparisonAtEnd(cfg, q);
    assert "icq.co"[..0] + "icq.co"[..6] == "icq.co";
  }

  /** With `co` no top-level domain the same text is no URL, and a parser without fixed URLs
      reports none; one that looks for icq.ru/get/ and icq.com/files/ reports the site "icq.co". */
  lemma SiteMadeUpAtEnd(tld: string -> bool)
    requires tld("com") && tld("net") && tld("ru") && !tld("co")
    ensures var cfg := IcqRuConfig(tld); Inv(cfg, NewParser(cfg))
    ensures var cfg := IcqRuConfig(tld);
      var r := Finish(cfg, Feed(cfg, NewParser(cfg), "icq.co")).core.report;
      && r.Reported? && r.found.kind.Site? && r.found.original == "icq.co"
      && SaveUrl(cfg, PlainFeed(cfg, Fresh(), "icq.co")).1.report.NoUrl?
  {
    hide Inv, PlainFeed, Feed, SaveUrl, Finish, BuiltInItems;
    var cfg := IcqRuConfig(tld);
    IcqRuWellShaped(tld);
    IcqRuSoFar(tld, 6);
    assert "icq.co"[..6] == "icq.co";
    SafeReports(cfg, Feed(cfg, NewParser(cfg), "icq.co"));
    PlainSite(cfg);
  }

  // ----- "a@b.zz": an e-mail address whose domain is no top-level domain -----

  const EMAIL := "a@b.zz"

  /** The parser after the first `n` characters of the address and a dot. */
  function EmailRead(n: nat): Core
    requires n <= 7
  {
    Fresh().(
      state := if n == 0 then Lookup
               else if n == 1 || n == 3 then Host
               else if n == 2 then InHost(HostAt)
               else if n == 4 || n == 7 then InHost(HostDot)
               else HostN,
      buf := (EMAIL + ".")[..n],
      domain := if n == 0 then "" else if n <= 4 then "a" else if n == 5 then "z" else "zz",
      isEmail := n > 2,
      segments := if n <= 4 then 1 else 2)
  }

  lemma EmailName(cfg: Config, n: nat)
    requires n < 4
    ensures PlainStep(cfg, EmailRead(n), EMAIL[n]) == EmailRead(n + 1) && !Restarts(cfg, EmailRead(n), EMAIL[n])
  {
    hide ProtocolStep, PrefixStep, PathStep, ExtensionStep, IdStep, SaveUrl;
    var t := EMAIL + ".";
    assert t[..n] + [t[n]] == t[..n + 1] && "" + ['a'] == "a";
  }

  lemma EmailLabel(cfg: Config)
    ensures PlainStep(cfg, EmailRead(4), 'z') == EmailRead(5) && !Restarts(cfg, EmailRead(4), 'z')
  {
    hide ProtocolStep, PrefixStep, PathStep, ExtensionStep, IdStep, SaveUrl;
    var t := EMAIL + ".";
    assert t[..4] + ['z'] == t[..5] && ['z'] == "z";
    assert !IsDigit("a"[0]);
  }

  lemma EmailDomain(cfg: Config, n: nat)
    requires 5 <= n < 7
    ensures var c := if n < 6 then 'z' else '.';
      PlainStep(cfg, EmailRead(n), c) == EmailRead(n + 1) && !Restarts(cfg, EmailRead(n), c)
  {
    hide ProtocolStep, PrefixStep, PathStep, ExtensionStep, IdStep, SaveUrl;
    var t := EMAIL + ".";
    assert t[..n] + [t[n]] == t[..n + 1] && "z" + ['z'] == "zz";
  }

  lemma EmailNext(cfg: Config, n: nat)
    requires n < 7
    ensures var c := (EMAIL + ".")[n];
      PlainStep(cfg, EmailRead(n), c) == EmailRead(n + 1) && !Restarts(cfg, EmailRead(n), c)
  {
    hide PlainStep, Restarts, EmailRead;
    if n < 4 {
      EmailName(cfg, n);
    } else if n == 4 {
      EmailLabel(cfg);
    } else {
      EmailDomain(cfg, n);
    }
  }

  lemma {:induction false} EmailSoFar(tld: string -> bool, n: nat)
    requires Inv(IcqConfig(tld), NewParser(IcqConfig(tld))) && n <= 7
    ensures Feed(IcqConfig(tld), NewParser(IcqConfig(tld)), (EMAIL + ".")[..n])
      == NewParser(IcqConfig(tld)).(core := EmailRead(n))
  {
    hide Inv, PlainStep, Restarts;
    var cfg, t := IcqConfig(tld), EMAIL + ".";
    if n == 0 {
    } else {
      EmailSoFar(tld, n - 1);
      EmailNext(cfg, n - 1);
      assert t[..n][..n - 1] == t[..n - 1];
      assert n == 1 ==> t[0] == 'a' && !InCompareSet(cfg.items, 'a');
    }
  }

  /** The address is dropped before a space, because `zz` is no top-level domain; it is
      reported at the end of the text, before a question mark, and before a dot and a space. */
  lemma EmailReported(tld: string -> bool)
    requires tld("com") && tld("net") && tld("ru") && !tld("zz")
    ensures var cfg := IcqConfig(tld); Inv(cfg, NewParser(cfg))
    ensures var cfg := IcqConfig(tld); var q := Feed(cfg, NewParser(cfg), EMAIL);
      && Step(cfg, q, ' ').core == Fresh()
      && UncheckedEmail(cfg, Finish(cfg, q).core)
      && UncheckedEmail(cfg, Step(cfg, q, '?').core)
    ensures var cfg := IcqConfig(tld);
      UncheckedEmail(cfg, Step(cfg, Feed(cfg, NewParser(cfg), EMAIL + "."), ' ').core)
  {
    hide Inv, Step, Finish, UncheckedEmail, EmailRead;
    var cfg, t := IcqConfig(tld), EMAIL + ".";
    IcqWellShaped(tld);
    EmailSoFar(tld, 6);
    EmailSoFar(tld, 7);
    assert t[..6] == EMAIL && t[..7] == t;
    EmailUnaccepted(tld);
    var q, d := Feed(cfg, NewParser(cfg), EMAIL), Feed(cfg, NewParser(cfg), t);
    EmailDropped(cfg, q);
    EmailUncheckedAtEndIff(cfg, q);
    EmailUncheckedIff(cfg, q, '?');
    EmailUncheckedIff(cfg, d, ' ');
  }

  lemma EmailUnaccepted(tld: string -> bool)
    requires !tld("zz")
    ensures EmailRead(6).state.HostN? && EmailRead(7).state == InHost(HostDot)
    ensures var cfg := IcqConfig(tld);
      EmailElsewhere(cfg, EmailRead(6)) && EmailElsewhere(cfg, LabelCounted(EmailRead(7)))
    ensures EmailRead(6).report.NoUrl? && EmailRead(7).report.NoUrl?
  {
    assert Lower("zz") == "zz";
  }

  lemma EmailDropped(cfg: Config, q: Parser)
    requires q.core.state.HostN? && !DomainAccepted(cfg, q.core)
    ensures ComparisonShape(cfg, q) && Step(cfg, q, ' ').core == Fresh()
  {
  }
}
