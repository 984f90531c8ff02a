/** When a comparison behind its safe position can be trusted: fixed URLs whose safe position
    is the end of their host and which cannot be mistaken for each other before it. */
module UrlSafePositions {
  import opened UrlTypes
  import opened UrlMachine
  import opened UrlInvariant
  import opened UrlReplay
  import opened UrlRuns
  import opened UrlHosts
  import opened UrlEnds
  import opened UrlParsing

  /** The safe position is the last character of the host, and a path follows. */
  predicate SafeAtHostEnd(item: Item) {
    && 0 < item.safe < |item.str| - 1 && item.str[item.safe + 1] == '/'
    && forall i :: 0 <= i <= item.safe ==> item.str[i] != '/'
  }

  /** The texts agree up to letter case before position `n` and differ there. */
  predicate PartAt(s: string, t: string, n: nat) {
    n < |s| && n < |t| && s[n] != t[n] && forall k :: 0 <= k < n ==> ToLower(s[k]) == ToLower(t[k])
  }

  /** Where another fixed URL parts from this one, this one is more than one character
      away from its safe position, or its host is complete. */
  predicate ApartFrom(item: Item, other: Item) {
    forall n: nat :: PartAt(item.str, other.str, n) ==> n + 1 < item.safe || item.safe + 1 < n
  }

  predicate Separated(items: seq<Item>) {
    forall i, j :: 0 <= i < |items| && 0 <= j < |items| ==> ApartFrom(items[i], items[j])
  }

  predicate Trusty(items: seq<Item>) {
    Separated(items) && forall i :: 0 <= i < |items| ==> SafeAtHostEnd(items[i])
  }

  // ----- The safe position after a scan -----

  lemma {:induction false} ScanSafe(items: seq<Item>, cmp: Comparison, c: char, n: nat)
    requires |cmp.matched| == |items| && n <= |items|
    requires forall i :: 0 <= i < |items| ==> items[i].safe > 0
    ensures var s := ScanItems(items, cmp, c, n);
      if s.safe == -1 then !s.partial
      else exists i :: 0 <= i < n && Considered(items, cmp.matched, cmp.pos, i) && s.safe == items[i].safe
  {
    hide IsEqual;
    if n == 0 {
    } else {
      ScanSafe(items, cmp, c, n - 1);
    }
  }

  // ----- What is known while comparing -----

  /** Some fixed URL begins with the compared text, which has come to its safe position. */
  predicate ReachesSafe(items: seq<Item>, v: string) {
    exists i :: 0 <= i < |items| && Variant(v, items[i].str) && items[i].safe <= |v|
  }

  /** The compared text is the host of some fixed URL. */
  predicate IsItemHost(items: seq<Item>, v: string) {
    exists i :: 0 <= i < |items| && Variant(v, items[i].str) && items[i].safe + 1 == |v|
  }

  predicate Honest(cfg: Config, p: Parser) {
    var v := p.cmp.buf;
    && (p.core.state.Compare? && p.cmp.safe != 0 && p.cmp.pos >= p.cmp.safe ==>
          PhaseAfter(cfg.tld, v).Tail? || ReachesSafe(cfg.items, v))
    && (p.core.state.CompareSafe? ==> PhaseAfter(cfg.tld, v).Tail? || IsItemHost(cfg.items, v))
  }

  lemma BothBegin(s: string, t: string, v: string, c: char)
    requires Variant(v, s) && |v| < |s| && Variant(v + [c], t) && !IsEqual(c, s[|v|])
    ensures PartAt(s, t, |v|)
  {
    var u := v + [c];
    assert u[|v|] == c;
    forall k | 0 <= k < |v|
      ensures ToLower(s[k]) == ToLower(t[k])
    {
      assert u[k] == v[k];
    }
  }

  lemma VariantSnoc(v: string, s: string, c: char)
    requires Variant(v, s) && |v| < |s| && IsEqual(c, s[|v|])
    ensures Variant(v + [c], s)
  {
  }

  /** Behind the host of a fixed URL the compared text is in its path. */
  lemma {:induction false} BehindItemHost(cfg: Config, item: Item, v: string)
    requires WellShapedItem(cfg.tld, item) && SafeAtHostEnd(item) && Variant(v, item.str) && item.safe + 1 <= |v|
    ensures if item.safe + 1 == |v| then PhaseAfter(cfg.tld, v).Label? && cfg.tld(PhaseAfter(cfg.tld, v).name)
            else PhaseAfter(cfg.tld, v).Tail?
    decreases |v|
  {
    hide NextPhase;
    PhaseOfVariant(cfg.tld, v, item.str);
    var t, n := item.str, |v|;
    PhaseOfPrefix(cfg.tld, t, n);
    if item.safe + 1 == n {
      PhaseOfPrefix(cfg.tld, t, n + 1);
      assert t[..n + 1][..n] == t[..n];
      NoSlashNoTail(cfg.tld, t[..n]);
      SlashFollows(cfg.tld, PhaseAfter(cfg.tld, t[..n]));
    } else {
      var u := v[..n - 1];
      BehindItemHost(cfg, item, u);
      PhaseOfVariant(cfg.tld, u, t);
      assert t[..n][..n - 1] == t[..n - 1];
      if item.safe + 1 == |u| {
        SlashFollows(cfg.tld, PhaseAfter(cfg.tld, u));
      } else {
        TailStays(cfg.tld, t[n - 1]);
      }
    }
  }

  lemma {:induction false} NoSlashNoTail(tld: string -> bool, v: string)
    requires forall i :: 0 <= i < |v| ==> v[i] != '/'
    ensures !PhaseAfter(tld, v).Tail?
  {
    if v == "" {
    } else {
      NoSlashNoTail(tld, v[..|v| - 1]);
    }
  }

  lemma SlashFollows(tld: string -> bool, ph: Phase)
    requires NextPhase(tld, ph, '/') != Bad && !ph.Tail?
    ensures ph.Label? && tld(ph.name) && NextPhase(tld, ph, '/').Tail?
  {
  }

  lemma TailStays(tld: string -> bool, c: char)
    ensures NextPhase(tld, Tail, c).Tail? || NextPhase(tld, Tail, c).Bad?
  {
  }

  // ----- Honest for ever -----

  lemma VariantPhase(cfg: Config, v: string, j: nat)
    requires WellShaped(cfg) && j < |cfg.items| && Variant(v, cfg.items[j].str)
    ensures PhaseAfter(cfg.tld, v) != Bad
  {
    hide NextPhase, PhaseAfter;
    assert WellShapedItem(cfg.tld, cfg.items[j]);
    PhaseOfVariant(cfg.tld, v, cfg.items[j].str);
    PhaseOfPrefix(cfg.tld, cfg.items[j].str, |v|);
  }

  lemma TailGoesOn(cfg: Config, v: string, c: char, j: nat)
    requires WellShaped(cfg) && j < |cfg.items| && Variant(v + [c], cfg.items[j].str)
    requires PhaseAfter(cfg.tld, v).Tail?
    ensures PhaseAfter(cfg.tld, v + [c]).Tail?
  {
    hide NextPhase;
    VariantPhase(cfg, v + [c], j);
    assert (v + [c])[..|v|] == v;
    TailStays(cfg.tld, c);
  }

  /** From its safe position on a comparison stays in the host or the path of a fixed URL. */
  lemma SafeGoesOn(cfg: Config, v: string, c: char, j: nat)
    requires WellShaped(cfg) && Trusty(cfg.items) && j < |cfg.items| && Variant(v + [c], cfg.items[j].str)
    requires PhaseAfter(cfg.tld, v).Tail? || ReachesSafe(cfg.items, v)
    ensures PhaseAfter(cfg.tld, v + [c]).Tail? || IsItemHost(cfg.items, v + [c])
  {
    hide PhaseAfter, WellShapedItem, IsEqual, Variant;
    if PhaseAfter(cfg.tld, v).Tail? {
      TailGoesOn(cfg, v, c, j);
    } else {
      var i :| 0 <= i < |cfg.items| && Variant(v, cfg.items[i].str) && cfg.items[i].safe <= |v|;
      var item := cfg.items[i];
      assert WellShapedItem(cfg.tld, item) && SafeAtHostEnd(item) && ApartFrom(item, cfg.items[j]);
      if item.safe + 1 <= |v| {
        BehindItemHost(cfg, item, v);
      }
      if IsEqual(c, item.str[|v|]) {
        VariantSnoc(v, item.str, c);
        BehindItemHost(cfg, item, v + [c]);
      } else {
        BothBegin(item.str, cfg.items[j].str, v, c);
        assert false;
      }
    }
  }

  /** The safe position taken from a fixed URL that has just failed is still out of reach. */
  lemma SafeTaken(cfg: Config, v: string, c: char, i: nat, j: nat)
    requires WellShaped(cfg) && Trusty(cfg.items) && i < |cfg.items| && j < |cfg.items|
    requires Variant(v, cfg.items[i].str) && |v| < |cfg.items[i].str| && Variant(v + [c], cfg.items[j].str)
    requires cfg.items[i].safe <= |v| + 1
    ensures PhaseAfter(cfg.tld, v + [c]).Tail? || ReachesSafe(cfg.items, v + [c])
  {
    hide PhaseAfter, WellShapedItem, IsEqual, Variant;
    var item := cfg.items[i];
    assert WellShapedItem(cfg.tld, item) && SafeAtHostEnd(item);
    if IsEqual(c, item.str[|v|]) {
      VariantSnoc(v, item.str, c);
    } else {
      BothBegin(item.str, cfg.items[j].str, v, c);
      assert ApartFrom(item, cfg.items[j]);
      BehindItemHost(cfg, item, v);
      TailGoesOn(cfg, v, c, j);
    }
  }

  /** A character that some fixed URL matches, read by a comparison that is in order. */
  lemma ScanHonest(cfg: Config, p: Parser, c: char, j: nat)
    requires WellShaped(cfg) && Trusty(cfg.items) && j < |cfg.items|
    requires |p.cmp.matched| == |cfg.items| && p.cmp.pos == |p.cmp.buf|
    requires p.cmp.pos > 0 ==>
      forall i :: 0 <= i < |cfg.items| && p.cmp.matched[i] ==> Agrees(p.cmp.buf, cfg.items[i].str)
    requires !CompareFixed(cfg, p, c).0.NoMatch? && Variant(p.cmp.buf + [c], cfg.items[j].str)
    ensures var q := CompareFixed(cfg, p, c).1;
      q.cmp.pos >= q.cmp.safe && q.cmp.safe != 0 ==>
        PhaseAfter(cfg.tld, q.cmp.buf).Tail? || ReachesSafe(cfg.items, q.cmp.buf)
  {
    hide PhaseAfter, WellShapedItem, IsEqual;
    forall i | 0 <= i < |cfg.items|
      ensures cfg.items[i].safe > 0
    {
      assert SafeAtHostEnd(cfg.items[i]);
    }
    ScanSafe(cfg.items, p.cmp, c, |cfg.items|);
    var s := ScanItems(cfg.items, p.cmp, c, |cfg.items|);
    var i :| 0 <= i < |cfg.items| && Considered(cfg.items, p.cmp.matched, p.cmp.pos, i) && s.safe == cfg.items[i].safe;
    if p.cmp.pos + 1 >= s.safe {
      SafeTaken(cfg, p.cmp.buf, c, i, j);
    }
  }

  lemma HonestStep(cfg: Config, p: Parser, c: char)
    requires Inv(cfg, p) && Trusty(cfg.items) && Honest(cfg, p)
    ensures Honest(cfg, Step(cfg, p, c))
  {
    hide PhaseAfter, CoreInv, ScanItems, Trusty, PlainParserStep;
    StepInv(cfg, p, c);
    var n := Step(cfg, p, c);
    if Comparing(n.core.state) {
      var j :| 0 <= j < |cfg.items| && n.cmp.matched[j] && n.cmp.pos <= |cfg.items[j].str|;
      assert Variant(n.cmp.buf, cfg.items[j].str);
      HonestGoesOn(cfg, p, c, j);
    }
  }

  lemma HonestGoesOn(cfg: Config, p: Parser, c: char, j: nat)
    requires Inv(cfg, p) && Trusty(cfg.items) && Honest(cfg, p)
    requires Comparing(Step(cfg, p, c).core.state)
    requires j < |cfg.items| && Variant(Step(cfg, p, c).cmp.buf, cfg.items[j].str)
    ensures Honest(cfg, Step(cfg, p, c))
  {
    hide PhaseAfter, CoreInv, ScanItems, Trusty, PlainStep, ReachesSafe, IsItemHost;
    if Comparing(p.core.state) {
      var p1 := Promoted(p);
      CanGiveBack(cfg, p, c);
      if CompareFixed(cfg, p1, c).0.NoMatch? {
        FailedComparison(cfg, p, c);
        PlainNeverCompares(cfg, PlainFeed(cfg, Base(p), p.cmp.buf), c);
      } else {
        ScanKeepsShape(cfg, p1, c);
        ScanHonest(cfg, p1, c, j);
        if p1.core.state.CompareSafe? {
          HostReachesSafe(cfg.items, p.cmp.buf);
          SafeGoesOn(cfg, p.cmp.buf, c, j);
        }
      }
    } else if StartsComparison(cfg, p.core.state, c) {
      ComparisonStarts(cfg, p, c);
      var fallback := if p.core.state.Lookup? then LookupWithoutFixed else Host;
      var cmp := Comparison("", 0, seq(|cfg.items|, _ => false), p.cmp.ok, fallback, 0);
      ScanHonest(cfg, p.(cmp := cmp), c, j);
    } else {
      PlainNeverCompares(cfg, p.core, c);
    }
  }

  lemma HostReachesSafe(items: seq<Item>, v: string)
    ensures IsItemHost(items, v) ==> ReachesSafe(items, v)
  {
  }

  lemma {:induction false} HonestRun(cfg: Config, p: Parser, s: string)
    requires Inv(cfg, p) && Trusty(cfg.items) && Honest(cfg, p)
    ensures Honest(cfg, Feed(cfg, p, s))
  {
    hide Step, Inv, Honest, Trusty;
    if s == "" {
    } else {
      HonestRun(cfg, p, s[..|s| - 1]);
      HonestStep(cfg, Feed(cfg, p, s[..|s| - 1]), s[|s| - 1]);
    }
  }

  // ----- What a safe comparison then reports -----

  /** The host of a fixed URL, and the host with some of its path, is a URL by itself. */
  lemma HonestSavable(cfg: Config, q: Parser)
    requires Inv(cfg, q) && Trusty(cfg.items) && Honest(cfg, q) && q.core.state.CompareSafe?
    ensures Savable(cfg, Base(q), q.cmp.buf) && !PhaseAfter(cfg.tld, q.cmp.buf).Dot?
  {
    hide PhaseAfter, DomainAfter, Separated, PlainFeed, ReachesSafe, Accepted, WellShapedItem, Variant;
    var b, v := Base(q), q.cmp.buf;
    ComparedText(cfg, q);
    if !PhaseAfter(cfg.tld, v).Tail? {
      var i :| 0 <= i < |cfg.items| && Variant(v, cfg.items[i].str) && cfg.items[i].safe + 1 == |v|;
      assert WellShapedItem(cfg.tld, cfg.items[i]) && SafeAtHostEnd(cfg.items[i]);
      BehindItemHost(cfg, cfg.items[i], v);
    }
    HostAccepted(cfg, b, v);
  }

  lemma HostAccepted(cfg: Config, b: Core, v: string)
    requires BaseOk(cfg, b) && v != ""
    requires PhaseAfter(cfg.tld, v).Tail? || (PhaseAfter(cfg.tld, v).Label? && cfg.tld(PhaseAfter(cfg.tld, v).name))
    ensures Savable(cfg, b, v)
  {
    hide PhaseAfter, DomainAfter, PlainFeed;
    ReplayKeepsAll(cfg, b, v);
    ReplayKnows(cfg, b, v);
    PlainFeedInv(cfg, b, v);
  }

  /** Among fixed URLs that cannot be mistaken for each other a safe comparison at the end of
      a text reports exactly what a parser without fixed URLs reports. */
  lemma SafeEndAlike(cfg: Config, p: Parser, s: string)
    requires Inv(cfg, p) && !Comparing(p.core.state) && NothingCompleted(cfg, p, s) && Trusty(cfg.items)
    requires Feed(cfg, p, s).core.report.NoUrl? && Feed(cfg, p, s).core.state.CompareSafe?
    ensures Finish(cfg, Feed(cfg, p, s)).core.report == SaveUrl(cfg, PlainFeed(cfg, p.core, s)).1.report
  {
    hide PlainFeed, CoreInv, SaveUrl, Savable, PhaseAfter, Trusty;
    HonestRun(cfg, p, s);
    HonestSavable(cfg, Feed(cfg, p, s));
    EndOfRun(cfg, p, s);
  }

  // ----- The built-in fixed URLs -----

  lemma PartBefore(s: string, t: string, n: nat, k: nat)
    requires PartAt(s, t, n) && k < |s| && k < |t| && ToLower(s[k]) != ToLower(t[k])
    ensures n <= k
  {
  }

  lemma DifferentLetters(item: Item, other: Item)
    requires item.str != "" && other.str != "" && ToLower(item.str[0]) != ToLower(other.str[0]) && item.safe > 1
    ensures ApartFrom(item, other)
  {
    forall n: nat | PartAt(item.str, other.str, n)
      ensures n == 0
    {
      PartBefore(item.str, other.str, n, 0);
    }
  }

  lemma FilesHostsApart()
    ensures ApartFrom(FilesItem(FILES_ICQ_NET), FilesItem(FILES_MYTEAM_MAIL_RU))
    ensures ApartFrom(FilesItem(FILES_MYTEAM_MAIL_RU), FilesItem(FILES_ICQ_NET))
  {
    var s, t := FilesItem(FILES_ICQ_NET).str, FilesItem(FILES_MYTEAM_MAIL_RU).str;
    assert s[6] == 'i' && t[6] == 'm';
    forall n: nat | PartAt(s, t, n)
      ensures n <= 6
    {
      PartBefore(s, t, n, 6);
    }
    forall n: nat | PartAt(t, s, n)
      ensures n <= 6
    {
      PartBefore(t, s, n, 6);
    }
  }

  lemma ApartFromItself(item: Item)
    ensures ApartFrom(item, item)
  {
  }

  /** A host for shared files that the client can be told to use: its first letter is not that
      of icq.com or chat.my.com and, in the business build, not that of the built-in ones. */
  predicate OwnLetter(host: string, biz: bool) {
    && |host| > 2 && (forall i :: 0 <= i < |host| ==> host[i] != '/')
    && ToLower(host[0]) != 'i' && ToLower(host[0]) != 'c'
    && (biz ==> host == FILES_ICQ_NET || host == FILES_MYTEAM_MAIL_RU || ToLower(host[0]) != 'f')
  }

  lemma FilesItemSafe(host: string)
    requires |host| > 2 && forall i :: 0 <= i < |host| ==> host[i] != '/'
    ensures SafeAtHostEnd(FilesItem(host)) && FilesItem(host).str[0] == host[0] && FilesItem(host).safe > 1
  {
  }

  lemma NamedHostsSafe()
    ensures SafeAtHostEnd(Item(ICQ_COM, FilesharingId, |"icq.com"| - 1))
    ensures SafeAtHostEnd(Item(CHAT_MY_COM, FilesharingId, |"chat.my.com"| - 1))
    ensures OwnLetter(FILES_ICQ_NET, true) && OwnLetter(FILES_MYTEAM_MAIL_RU, true)
  {
  }

  /** The built-in fixed URLs can be trusted with any such host, the default one included. */
  lemma BuiltInsTrusty(host: string, biz: bool)
    requires OwnLetter(host, biz)
    ensures Trusty(BuiltInItems(host, biz))
  {
    hide ApartFrom, SafeAtHostEnd, FilesItem;
    var items, hosts := BuiltInItems(host, biz), FilesUrls(host, biz);
    NamedHostsSafe();
    FilesHostsApart();
    forall i | 0 <= i < |hosts|
      ensures SafeAtHostEnd(items[i]) && items[i] == FilesItem(hosts[i])
      ensures items[i].safe > 1 && items[i].str != "" && items[i].str[0] == hosts[i][0]
    {
      FilesItemSafe(hosts[i]);
    }
    assert |items| == |hosts| + 2;
    forall i, j | 0 <= i < |items| && 0 <= j < |items|
      ensures ApartFrom(items[i], items[j])
    {
      if items[i] == items[j] {
        ApartFromItself(items[i]);
      } else if ToLower(items[i].str[0]) != ToLower(items[j].str[0]) {
        DifferentLetters(items[i], items[j]);
      }
    }
  }
}
