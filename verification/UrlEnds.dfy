/** The end of a text while a fixed URL is being compared: what is reported there, and
    what a parser without fixed URLs reports. */
module UrlEnds {
  import opened UrlTypes
  import opened UrlMachine
  import opened UrlInvariant
  import opened UrlReplay
  import opened UrlRuns
  import opened UrlHosts

  /** At the end of a text a comparison that has not reached its safe position reports
      nothing; one that has reports all it has read, unchecked and untrimmed. */
  lemma ComparisonAtEnd(cfg: Config, p: Parser)
    requires Inv(cfg, p) && Comparing(p.core.state)
    ensures p.core.state.Compare? ==> Finish(cfg, p) == p
    ensures p.core.state.CompareSafe? ==>
      var b, r := Base(p), Finish(cfg, p).core.report;
      r == Reported(MakeUrl(b.(buf := b.buf + p.cmp.buf), SiteKind(b.protocol)))
  {
    hide PhaseAfter;
    ComparedText(cfg, p);
  }

  lemma EndingPhase(tld: string -> bool, ph: Phase, c: char)
    requires NextPhase(tld, ph, c) != Bad
    ensures IsEnding(c) <==> NextPhase(tld, ph, c).Dot?
  {
  }

  lemma LastCharacter(tld: string -> bool, v: string)
    requires v != "" && PhaseAfter(tld, v) != Bad
    ensures IsEnding(v[|v| - 1]) <==> PhaseAfter(tld, v).Dot?
  {
    hide NextPhase, IsEnding;
    EndingPhase(tld, PhaseAfter(tld, v[..|v| - 1]), v[|v| - 1]);
  }

  lemma SavedSite(cfg: Config, k: Core)
    requires SaveUrl(cfg, k).0 && !k.isEmail && k.extension.NoExtension? && k.needDomain
    requires !k.state.CompareSafe? && !k.state.ProfileId? && !k.state.FilesharingId?
    ensures SaveUrl(cfg, k).1.report == Reported(MakeUrl(Trimmed(k), SiteKind(k.protocol)))
    ensures !NeverSaved(k.state) && k.domain != ""
  {
    hide MakeUrl, TailLength;
  }

  lemma KnownProtocol(cfg: Config, ph: Phase, b: Core, k: Core, d: Domain)
    requires BaseOk(cfg, b) && Known(ph, b, k, d) && PhaseState(ph, b, k)
    ensures !k.state.CompareSafe? && !k.state.ProfileId? && !k.state.FilesharingId? && b.extension.NoExtension?
    ensures !NeverSaved(k.state) && k.domain != "" ==> k.protocol == b.protocol
  {
  }

  /** What the plain parser reports of the beginning of a fixed URL. */
  lemma PlainAtEnd(cfg: Config, b: Core, v: string)
    requires BaseOk(cfg, b) && v != "" && PhaseAfter(cfg.tld, v) != Bad && Savable(cfg, b, v)
    ensures var t := b.(buf := b.buf + if PhaseAfter(cfg.tld, v).Dot? then v[..|v| - 1] else v);
      SaveUrl(cfg, PlainFeed(cfg, b, v)).1.report == Reported(MakeUrl(t, SiteKind(b.protocol)))
  {
    hide PlainFeed, DomainAfter, NextPhase, PhaseAfter, SaveUrl, BaseOk, PhaseState, TailLength;
    var k, ph := PlainFeed(cfg, b, v), PhaseAfter(cfg.tld, v);
    SavedIffSavable(cfg, b, v);
    ReplayKnows(cfg, b, v);
    ReplayKeepsAll(cfg, b, v);
    KnownProtocol(cfg, ph, b, k, DomainAfter(cfg, b, v));
    SavedSite(cfg, k);
    TrimmedOnce(cfg.tld, b.buf, v);
    assert ph.Dot? ==> (b.buf + v)[..|b.buf + v| - 1] == b.buf + v[..|v| - 1];
    assert (b.buf + v)[..|b.buf + v|] == b.buf + v;
  }

  lemma TrimmedOnce(tld: string -> bool, s: string, v: string)
    requires v != "" && PhaseAfter(tld, v) != Bad
    ensures TailLength(s + v) == if PhaseAfter(tld, v).Dot? then 1 else 0
  {
    LastCharacter(tld, v);
    var t := s + v;
    assert t[|t| - 1] == v[|v| - 1];
    if PhaseAfter(tld, v).Dot? {
      var u := v[..|v| - 1];
      PhaseOfPrefix(tld, v, |u|);
      assert u != "" && !PhaseAfter(tld, u).Dot?;
      LastCharacter(tld, u);
      assert t[..|t| - 1] == s + u;
    }
  }

  /** Does the end of the text report what a parser without fixed URLs reports? Told from
      the compared text and from what stood before it. */
  predicate EndsAlike(cfg: Config, q: Parser)
    requires q.cmp.pos <= |q.core.buf|
  {
    var b, v := Base(q), q.cmp.buf;
    && (q.core.state.Compare? ==> !Savable(cfg, b, v))
    && (q.core.state.CompareSafe? ==> Savable(cfg, b, v) && !PhaseAfter(cfg.tld, v).Dot?)
  }

  lemma CompareEnd(cfg: Config, q: Parser)
    requires Inv(cfg, q) && Comparing(q.core.state) && q.core.report.NoUrl?
    ensures var k := PlainFeed(cfg, Base(q), q.cmp.buf);
      Finish(cfg, q).core.report == SaveUrl(cfg, k).1.report <==> EndsAlike(cfg, q)
  {
    hide PlainFeed, DomainAfter, NextPhase, PhaseAfter, SaveUrl, BaseOk, Finish, Savable;
    var b, v := Base(q), q.cmp.buf;
    var k := PlainFeed(cfg, b, v);
    ComparedText(cfg, q);
    ComparisonAtEnd(cfg, q);
    ReplayKeepsAll(cfg, b, v);
    SavedIffSavable(cfg, b, v);
    if Savable(cfg, b, v) {
      PlainAtEnd(cfg, b, v);
    } else {
      UnsavedReportsNothing(cfg, k);
    }
  }

  /** So after any text the last report differs from the plain one in exactly two ways: a
      comparison before its safe position misses a URL that the compared text is by itself,
      and one behind it reports the compared text although it is none, or with its last dot. */
  lemma EndOfRun(cfg: Config, p: Parser, s: string)
    requires Inv(cfg, p) && !Comparing(p.core.state) && NothingCompleted(cfg, p, s)
    requires Feed(cfg, p, s).core.report.NoUrl?
    ensures var q, k := Feed(cfg, p, s), PlainFeed(cfg, p.core, s);
      Finish(cfg, q).core.report == SaveUrl(cfg, k).1.report <==> !Comparing(q.core.state) || EndsAlike(cfg, q)
  {
    hide PlainFeed, CoreInv, SaveUrl, EndsAlike;
    UnmatchedRun(cfg, p, s);
    var q := Feed(cfg, p, s);
    if Comparing(q.core.state) {
      CompareEnd(cfg, q);
    } else {
      FinishSaves(cfg, q);
    }
  }
}
