/** When a fixed URL is recognised, and which links to profiles and shared files are reported. */
module UrlFixed {
  import opened UrlTypes
  import opened UrlMachine
  import opened UrlInvariant
  import opened UrlReplay
  import opened UrlRuns
  import opened UrlTexts
  import opened UrlPaths

  /** The text is this fixed URL, in whatever case of letters. */
  predicate Same(v: string, text: string) { |v| == |text| && Variant(v, text) }

  /** Every fixed URL that the text agrees with up to its last character is just as long. */
  ghost predicate NothingLonger(cfg: Config, v: string)
    requires v != ""
  {
    forall j :: 0 <= j < |cfg.items| && |cfg.items[j].str| >= |v| && Variant(v[..|v| - 1], cfg.items[j].str) ==>
      |cfg.items[j].str| == |v|
  }

  // ----- What a scan decides -----

  lemma {:induction false} ScanEnds(items: seq<Item>, cmp: Comparison, c: char, n: nat)
    requires |cmp.matched| == |items| && n <= |items|
    ensures var s := ScanItems(items, cmp, c, n);
      && (s.ended <==>
            forall i :: 0 <= i < n && Considered(items, cmp.matched, cmp.pos, i) ==> |items[i].str| == cmp.pos + 1)
      && (s.partial && s.ended ==>
            exists i :: 0 <= i < n && Considered(items, cmp.matched, cmp.pos, i)
                        && IsEqual(c, items[i].str[cmp.pos]) && s.ok == items[i].ok)
  {
    hide IsEqual;
    if n == 0 {
    } else {
      ScanEnds(items, cmp, c, n - 1);
    }
  }

  /** The first fixed URL that the scan considers. */
  predicate FirstConsidered(items: seq<Item>, matched: seq<bool>, pos: nat, i: nat)
    requires i < |items| == |matched|
  {
    Considered(items, matched, pos, i) && forall j :: 0 <= j < i ==> !Considered(items, matched, pos, j)
  }

  /** Does the scan take the safe position of this fixed URL into account? Those that match count, and the
      first one considered even if it does not. */
  predicate Counts(items: seq<Item>, cmp: Comparison, c: char, i: nat)
    requires i < |items| == |cmp.matched|
  {
    && Considered(items, cmp.matched, cmp.pos, i)
    && (IsEqual(c, items[i].str[cmp.pos]) || FirstConsidered(items, cmp.matched, cmp.pos, i))
  }

  /** The safe position after a scan is the smallest of those that count. */
  lemma {:induction false} SafeIsSmallest(items: seq<Item>, cmp: Comparison, c: char, n: nat)
    requires |cmp.matched| == |items| && n <= |items| && forall i :: 0 <= i < |items| ==> items[i].safe >= 0
    ensures var safe := ScanItems(items, cmp, c, n).safe;
      if exists i :: 0 <= i < n && Considered(items, cmp.matched, cmp.pos, i) then
        && (forall i :: 0 <= i < n && Counts(items, cmp, c, i) ==> safe <= items[i].safe)
        && (exists i :: 0 <= i < n && Counts(items, cmp, c, i) && safe == items[i].safe)
      else safe == -1
  {
    hide IsEqual, Considered;
    if n == 0 {
    } else {
      SafeIsSmallest(items, cmp, c, n - 1);
      var was, now := ScanItems(items, cmp, c, n - 1).safe, ScanItems(items, cmp, c, n).safe;
      if !(exists i :: 0 <= i < n - 1 && Considered(items, cmp.matched, cmp.pos, i)) {
        if Considered(items, cmp.matched, cmp.pos, n - 1) {
          assert Counts(items, cmp, c, n - 1) && now == items[n - 1].safe;
        }
      } else {
        var i :| 0 <= i < n - 1 && Counts(items, cmp, c, i) && was == items[i].safe;
        assert now == was || (Counts(items, cmp, c, n - 1) && now == items[n - 1].safe);
      }
    }
  }

  lemma VariantSnoc(v: string, m: nat, text: string)
    requires m < |v|
    ensures Variant(v[..m + 1], text) <==> Variant(v[..m], text) && m < |text| && IsEqual(v[m], text[m])
  {
    hide IsEqual;
    var w, u := v[..m + 1], v[..m];
    assert w[m] == v[m] && forall j :: 0 <= j < m ==> w[j] == u[j];
  }

  /** The flags of a comparison say which fixed URLs begin like the text compared. */
  ghost predicate FlagsTell(cfg: Config, cmp: Comparison, v: string, m: nat)
    requires m <= |v|
  {
    && |cmp.matched| == |cfg.items| && cmp.pos == m
    && (m > 0 ==> forall j :: 0 <= j < |cfg.items| && |cfg.items[j].str| >= m ==>
          (cmp.matched[j] <==> Variant(v[..m], cfg.items[j].str)))
  }

  lemma ConsideredIff(cfg: Config, cmp: Comparison, v: string, m: nat, j: nat)
    requires m < |v| && FlagsTell(cfg, cmp, v, m) && j < |cfg.items|
    ensures Considered(cfg.items, cmp.matched, m, j) <==>
      |cfg.items[j].str| >= m + 1 && Variant(v[..m], cfg.items[j].str)
  {
  }

  lemma NothingAgrees(v: string)
    ensures forall text :: Variant(v[..0], text)
  {
  }

  /** One character of a text that some fixed URL begins with. */
  lemma ScanDecides(cfg: Config, cmp: Comparison, v: string, m: nat, i: nat)
    requires m < |v| && FlagsTell(cfg, cmp, v, m) && i < |cfg.items| && Variant(v[..m + 1], cfg.items[i].str)
    ensures var s := ScanItems(cfg.items, cmp, v[m], |cfg.items|);
      && s.partial && FlagsTell(cfg, cmp.(matched := s.matched, pos := m + 1), v, m + 1)
      && (s.ended <==> NothingLonger(cfg, v[..m + 1]))
      && (s.ended ==> exists j :: 0 <= j < |cfg.items| && Same(v[..m + 1], cfg.items[j].str) && s.ok == cfg.items[j].ok)
  {
    hide IsEqual, Variant, Considered;
    ScanFinds(cfg.items, cmp, v[m], |cfg.items|);
    ScanEnds(cfg.items, cmp, v[m], |cfg.items|);
    VariantSnoc(v, m, cfg.items[i].str);
    forall j | 0 <= j < |cfg.items|
      ensures Considered(cfg.items, cmp.matched, m, j) <==>
        |cfg.items[j].str| >= m + 1 && Variant(v[..m], cfg.items[j].str)
      ensures Variant(v[..m + 1], cfg.items[j].str) <==>
        Variant(v[..m], cfg.items[j].str) && m < |cfg.items[j].str| && IsEqual(v[m], cfg.items[j].str[m])
    {
      ConsideredIff(cfg, cmp, v, m, j);
      VariantSnoc(v, m, cfg.items[j].str);
    }
    NothingAgrees(v);
    assert v[..m + 1][..m] == v[..m];
  }

  // ----- Reading a fixed URL -----

  /** The parser compares the first `m` characters of a text that began where `p` stood. */
  ghost predicate ComparesText(cfg: Config, p: Parser, v: string, m: nat, q: Parser)
    requires m <= |v|
  {
    && Comparing(q.core.state) && q.core == p.core.(state := q.core.state, buf := p.core.buf + v[..m])
    && q.cmp.buf == v[..m] && FlagsTell(cfg, q.cmp, v, m)
  }

  /** The parser has recognised the text as a fixed URL and is in one of the states asked for behind it. */
  ghost predicate Recognised(cfg: Config, p: Parser, v: string, q: Parser) {
    exists j :: 0 <= j < |cfg.items| && Same(v, cfg.items[j].str)
                && q.core == p.core.(state := cfg.items[j].ok, buf := p.core.buf + v)
  }

  ghost predicate ReadSoFar(cfg: Config, p: Parser, v: string, m: nat, q: Parser)
    requires 0 < m <= |v|
  {
    if NothingLonger(cfg, v[..m]) then Recognised(cfg, p, v[..m], q) else ComparesText(cfg, p, v, m, q)
  }

  lemma StartsReading(cfg: Config, p: Parser, v: string, i: nat)
    requires Inv(cfg, p) && v != "" && StartsComparison(cfg, p.core.state, v[0])
    requires i < |cfg.items| && Variant(v[..1], cfg.items[i].str)
    ensures ReadSoFar(cfg, p, v, 1, Step(cfg, p, v[0]))
  {
    hide Variant, Inv, NothingLonger, InCompareSet;
    var fallback := if p.core.state.Lookup? then LookupWithoutFixed else Host;
    var cmp := Comparison("", 0, seq(|cfg.items|, _ => false), p.cmp.ok, fallback, 0);
    assert FlagsTell(cfg, cmp, v, 0);
    NotComparingStart(cfg, p.core.state, v[0]);
    ScanDecides(cfg, cmp, v, 0, i);
    assert v[..1] == [v[0]] && "" + [v[0]] == [v[0]];
  }

  lemma NotComparingStart(cfg: Config, s: State, c: char)
    requires StartsComparison(cfg, s, c)
    ensures !Comparing(s)
  {
  }

  lemma ReadsOn(cfg: Config, p: Parser, v: string, m: nat, i: nat, q: Parser)
    requires 0 < m < |v| && Inv(cfg, q) && ComparesText(cfg, p, v, m, q)
    requires i < |cfg.items| && Variant(v[..m + 1], cfg.items[i].str)
    ensures ReadSoFar(cfg, p, v, m + 1, Step(cfg, q, v[m]))
  {
    hide Variant, NothingLonger, CoreInv, PlainFeed, PlainParserStep, WellShaped;
    ScanDecides(cfg, q.cmp, v, m, i);
    assert v[..m + 1] == v[..m] + [v[m]];
    assert p.core.buf + v[..m + 1] == (p.core.buf + v[..m]) + [v[m]];
  }

  /** Read from where a comparison starts, a fixed URL is recognised with its last character exactly when no
      longer one agrees with it up to there, and never earlier. */
  lemma {:induction false} FixedUrlRead(cfg: Config, p: Parser, v: string, m: nat, i: nat)
    requires Inv(cfg, p) && v != "" && StartsComparison(cfg, p.core.state, v[0])
    requires i < |cfg.items| && Same(v, cfg.items[i].str) && 0 < m <= |v|
    ensures ReadSoFar(cfg, p, v, m, Feed(cfg, p, v[..m])) && (m < |v| ==> !NothingLonger(cfg, v[..m]))
    decreases m
  {
    hide Inv, Step, StartsComparison, ReadSoFar, NothingLonger, Variant;
    VariantPrefix(v, cfg.items[i].str, m);
    if m < |v| {
      NotYet(cfg, v, m, i);
    }
    if m == 1 {
      StartsReading(cfg, p, v, i);
      FeedOne(cfg, p, v);
    } else {
      FixedUrlRead(cfg, p, v, m - 1, i);
      var q := Feed(cfg, p, v[..m - 1]);
      SoFarCompares(cfg, p, v, m - 1, q);
      ReadsOn(cfg, p, v, m - 1, i, q);
      assert v[..m] == v[..m - 1] + [v[m - 1]];
      FeedSnoc(cfg, p, v[..m - 1], v[m - 1]);
    }
  }

  lemma SoFarCompares(cfg: Config, p: Parser, v: string, m: nat, q: Parser)
    requires 0 < m <= |v| && ReadSoFar(cfg, p, v, m, q) && !NothingLonger(cfg, v[..m])
    ensures ComparesText(cfg, p, v, m, q)
  {
    hide NothingLonger;
  }

  lemma FeedOne(cfg: Config, p: Parser, v: string)
    requires Inv(cfg, p) && v != ""
    ensures Feed(cfg, p, v[..1]) == Step(cfg, p, v[0])
  {
    hide Inv, Step;
    assert v[..1] == "" + [v[0]];
    FeedSnoc(cfg, p, "", v[0]);
  }

  lemma VariantPrefix(v: string, text: string, m: nat)
    requires Variant(v, text) && m <= |v|
    ensures Variant(v[..m], text)
  {
  }

  lemma NotYet(cfg: Config, v: string, m: nat, i: nat)
    requires i < |cfg.items| && Same(v, cfg.items[i].str) && 0 < m < |v|
    ensures !NothingLonger(cfg, v[..m])
  {
    VariantPrefix(v, cfg.items[i].str, m - 1);
    assert v[..m][..m - 1] == v[..m - 1];
  }

  // ----- What stands behind it -----

  predicate IdSign(c: char) { Letter(c) || Digit(c) || c in "._@-" }

  predicate IdText(t: string) { forall i :: 0 <= i < |t| ==> IdSign(t[i]) }

  lemma IdStepRead(cfg: Config, k: Core, c: char)
    requires (k.state.FilesharingId? || k.state.ProfileId?) && IdSign(c)
    ensures PlainStep(cfg, k, c) == k.(idLength := k.idLength + 1, buf := k.buf + [c])
  {
    hide HostStep, SaveUrl;
  }

  lemma {:induction false} IdRead(cfg: Config, k: Core, t: string)
    requires (k.state.FilesharingId? || k.state.ProfileId?) && IdText(t)
    ensures PlainFeed(cfg, k, t) == k.(idLength := k.idLength + |t|, buf := k.buf + t)
  {
    hide PlainStep, IdSign;
    if t == "" {
      assert k.buf + t == k.buf;
    } else {
      var u, c := t[..|t| - 1], t[|t| - 1];
      IdRead(cfg, k, u);
      IdStepRead(cfg, PlainFeed(cfg, k, u), c);
      assert k.buf + t == (k.buf + u) + [c];
    }
  }

  /** What should be reported of a link without a scheme. */
  predicate LinkTold(text: string, kind: UrlKind, u: Url) {
    && u.original == text && u.url == "http://" + text && u.kind == kind
    && u.protocol == Http && u.extension == NoExtension
  }

  lemma ProfileSaved(cfg: Config, k: Core)
    requires k.state.ProfileId? && k.protocol.NoProtocol? && !k.hasPrefix && k.extension.NoExtension?
    ensures var (ok, n) := SaveUrl(cfg, k); ok && n.report.Reported? && LinkTold(k.buf, Profile, n.report.found)
  {
  }

  lemma FileSaved(cfg: Config, k: Core)
    requires k.state.FilesharingId? && k.protocol.NoProtocol? && !k.hasPrefix && k.extension.NoExtension? && !k.isEmail
    requires k.idLength >= MIN_FILESHARING_ID_LENGTH
    ensures var (ok, n) := SaveUrl(cfg, k);
      && ok && n.report.Reported? && WithoutTrailing(k.buf, n.report.found.original)
      && LinkTold(n.report.found.original, Filesharing, n.report.found)
  {
    hide TailLength, WithoutTrailing, Accepted;
    Trailing(k.buf);
  }

  lemma FileUnsaved(cfg: Config, k: Core)
    requires k.state.FilesharingId? && k.protocol.NoProtocol? && k.extension.NoExtension? && !k.isEmail && k.needDomain
    requires k.domain == "" && k.idLength < MIN_FILESHARING_ID_LENGTH && k.report.NoUrl?
    ensures var (ok, n) := SaveUrl(cfg, k); !ok && n.report.NoUrl?
  {
    hide TailLength;
  }

  lemma IdBlank(cfg: Config, k: Core, c: char)
    requires (k.state.FilesharingId? || k.state.ProfileId?) && Blank(c)
    ensures var n := k.(idLength := k.idLength + 1); var (ok, m) := SaveUrl(cfg, n);
      PlainStep(cfg, k, c) == if ok then m else Fresh()
  {
    hide HostStep, SaveUrl;
  }

  // ----- Links -----

  /** A text that is a fixed URL, in whatever case of letters, and what is asked for behind it. */
  ghost predicate LinkTo(cfg: Config, v: string, ok: State) {
    && v != "" && InCompareSet(cfg.items, v[0]) && NothingLonger(cfg, v)
    && (exists i :: 0 <= i < |cfg.items| && Same(v, cfg.items[i].str))
    && (forall i :: 0 <= i < |cfg.items| && Same(v, cfg.items[i].str) ==> cfg.items[i].ok == ok)
  }

  lemma LinkStarts(cfg: Config, p: Parser, v: string, ok: State)
    requires Inv(cfg, p) && p.core == Fresh() && LinkTo(cfg, v, ok)
    ensures Feed(cfg, p, v).core == Fresh().(state := ok, buf := v) && (ok.FilesharingId? || ok.ProfileId?)
  {
    hide Inv, InCompareSet, NothingLonger, Same, Feed;
    var i :| 0 <= i < |cfg.items| && Same(v, cfg.items[i].str);
    FixedUrlRead(cfg, p, v, |v|, i);
    assert v[..|v|] == v && "" + v == v;
    AskedFor(cfg, p, i);
  }

  lemma AskedFor(cfg: Config, p: Parser, i: nat)
    requires Inv(cfg, p) && i < |cfg.items|
    ensures cfg.items[i].ok.FilesharingId? || cfg.items[i].ok.ProfileId?
  {
    assert WellShapedItem(cfg.tld, cfg.items[i]);
  }

  lemma IdIsPlain(cfg: Config, p: Parser, c: char)
    requires Inv(cfg, p) && (p.core.state.FilesharingId? || p.core.state.ProfileId?)
    ensures Step(cfg, p, c).core == PlainStep(cfg, p.core, c)
  {
    hide PlainStep, Restarts;
    StepPlainly(cfg, p, c);
  }

  lemma {:induction false} LinkRead(cfg: Config, p: Parser, v: string, ok: State, t: string)
    requires Inv(cfg, p) && p.core == Fresh() && LinkTo(cfg, v, ok) && IdText(t)
    ensures Feed(cfg, p, v + t).core == Fresh().(state := ok, buf := v + t, idLength := |t|)
    ensures ok.FilesharingId? || ok.ProfileId?
  {
    hide Inv, LinkTo, Step, Feed, IdSign, PlainStep;
    if t == "" {
      assert v + t == v;
      LinkStarts(cfg, p, v, ok);
    } else {
      var u, c := t[..|t| - 1], t[|t| - 1];
      LinkRead(cfg, p, v, ok, u);
      assert (v + u) + [c] == v + t;
      FeedSnoc(cfg, p, v + u, c);
      IdIsPlain(cfg, Feed(cfg, p, v + u), c);
      IdStepRead(cfg, Feed(cfg, p, v + u).core, c);
    }
  }

  /** Links to profiles are reported before a blank whatever follows the fixed URL, links to shared files when
      32 more characters do. */
  lemma LinkFound(cfg: Config, p: Parser, v: string, ok: State, t: string, c: char)
    requires Inv(cfg, p) && p.core == Fresh() && LinkTo(cfg, v, ok) && IdText(t) && Blank(c)
    ensures var n := Feed(cfg, p, v + t + [c]).core;
      if ok.ProfileId? then n.report.Reported? && LinkTold(v + t, Profile, n.report.found)
      else if |t| >= 32 then
        && n.report.Reported? && WithoutTrailing(v + t, n.report.found.original)
        && LinkTold(n.report.found.original, Filesharing, n.report.found)
      else n == Fresh()
  {
    hide Inv, LinkTo, Step, Feed, IdText, PlainStep, SaveUrl, LinkTold, WithoutTrailing, Blank;
    LinkRead(cfg, p, v, ok, t);
    var q := Feed(cfg, p, v + t);
    FeedSnoc(cfg, p, v + t, c);
    IdIsPlain(cfg, q, c);
    IdBlank(cfg, q.core, c);
    var d := q.core.(idLength := |t| + 1);
    if ok.ProfileId? {
      ProfileSaved(cfg, d);
    } else if |t| >= 32 {
      FileSaved(cfg, d);
    } else {
      FileUnsaved(cfg, d);
    }
  }

  /** At any other sign a link is given up. */
  lemma LinkDropped(cfg: Config, p: Parser, v: string, ok: State, t: string, c: char)
    requires Inv(cfg, p) && p.core == Fresh() && LinkTo(cfg, v, ok) && IdText(t) && !Blank(c) && !IdSign(c)
    ensures Feed(cfg, p, v + t + [c]).core == Fresh()
  {
    hide Inv, LinkTo, Step, Feed, IdText, PlainStep, Blank, IdSign;
    LinkRead(cfg, p, v, ok, t);
    FeedSnoc(cfg, p, v + t, c);
    IdIsPlain(cfg, Feed(cfg, p, v + t), c);
    NoIdSign(cfg, Feed(cfg, p, v + t).core, c);
  }

  lemma NoIdSign(cfg: Config, k: Core, c: char)
    requires (k.state.FilesharingId? || k.state.ProfileId?) && !Blank(c) && !IdSign(c)
    ensures PlainStep(cfg, k, c) == Fresh()
  {
    hide HostStep, SaveUrl;
    CharactersAgree(c);
  }

  /** At the end of a text a link to a shared file needs one character more. */
  lemma LinkFoundAtEnd(cfg: Config, p: Parser, v: string, ok: State, t: string)
    requires Inv(cfg, p) && p.core == Fresh() && LinkTo(cfg, v, ok) && IdText(t)
    ensures var r := Finish(cfg, Feed(cfg, p, v + t)).core.report;
      if ok.ProfileId? then r.Reported? && LinkTold(v + t, Profile, r.found)
      else if |t| >= 33 then
        r.Reported? && WithoutTrailing(v + t, r.found.original) && LinkTold(r.found.original, Filesharing, r.found)
      else r.NoUrl?
  {
    hide Inv, LinkTo, Feed, IdText, SaveUrl, LinkTold, WithoutTrailing;
    LinkRead(cfg, p, v, ok, t);
    var k := Feed(cfg, p, v + t).core;
    if ok.ProfileId? {
      ProfileSaved(cfg, k);
    } else if |t| >= 33 {
      FileSaved(cfg, k);
    } else {
      FileUnsaved(cfg, k);
    }
  }
}
