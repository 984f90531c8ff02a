/** Whole texts: what a parser with fixed URLs reads compared with one without,
    and the URLs found in a text. */
module UrlRuns {
  import opened UrlTypes
  import opened UrlMachine
  import opened UrlInvariant
  import opened UrlReplay

  /** The parser after a whole text. */
  ghost function Feed(cfg: Config, p: Parser, s: string): (q: Parser)
    requires Inv(cfg, p)
    ensures Inv(cfg, q)
  {
    if s == "" then p
    else
      var q := Feed(cfg, p, s[..|s| - 1]);
      StepInv(cfg, q, s[|s| - 1]);
      Step(cfg, q, s[|s| - 1])
  }

  /** Does this character complete a fixed URL? */
  ghost predicate Completes(cfg: Config, p: Parser, c: char)
    requires Inv(cfg, p)
  {
    if Comparing(p.core.state) then CompareFixed(cfg, Promoted(p), c).0.Match?
    else StartsComparison(cfg, p.core.state, c) && !Comparing(StartComparison(cfg, p, c).core.state)
  }

  ghost predicate NothingCompleted(cfg: Config, p: Parser, s: string)
    requires Inv(cfg, p)
  {
    s != "" ==> NothingCompleted(cfg, p, s[..|s| - 1]) && !Completes(cfg, Feed(cfg, p, s[..|s| - 1]), s[|s| - 1])
  }

  /** Parser `q` stands where the plain core `k` stands; during a comparison the
      plain parser has already read the compared text. */
  ghost predicate SameAsPlain(cfg: Config, q: Parser, k: Core)
    requires Inv(cfg, q)
  {
    if Comparing(q.core.state) then k == PlainFeed(cfg, Base(q), q.cmp.buf) else k == q.core
  }

  /** A character read from the state where a comparison starts, or from its
      fallback state, has the same effect when no fixed URL is looked for. */
  lemma FallbackStateIsAlike(cfg: Config, k: Core, c: char)
    requires CoreInv(cfg, k) && IsLetterOrDigit(c)
    requires k.state.Lookup? || (k.state == InPrefix(CheckWww) && !Is(c, 'w')) || k.state == InPrefix(CheckFilesharing)
    ensures PlainStep(cfg, k.(state := if k.state.Lookup? then LookupWithoutFixed else Host), c) == PlainStep(cfg, k, c)
  {
    var b := k.(state := if k.state.Lookup? then LookupWithoutFixed else Host);
    if k.state.Lookup? {
      assert PlainOutcome(cfg, b, c).Consume? && PlainOutcome(cfg, k, c) == PlainOutcome(cfg, b, c);
    } else {
      assert PlainOutcome(cfg, b, c) == Consume(k.(state := Host, domain := k.domain + [c]));
    }
  }

  lemma StepSameAsPlain(cfg: Config, q: Parser, k: Core, c: char)
    requires Inv(cfg, q) && SameAsPlain(cfg, q, k) && !Completes(cfg, q, c)
    ensures Inv(cfg, Step(cfg, q, c)) && SameAsPlain(cfg, Step(cfg, q, c), PlainStep(cfg, k, c))
  {
    hide PlainStep, PlainFeed, CoreInv, CompareFixed;
    StepInv(cfg, q, c);
    if Comparing(q.core.state) {
      var p1 := Promoted(q);
      CanGiveBack(cfg, q, c);
      if CompareFixed(cfg, p1, c).0.NoMatch? {
        FailedComparison(cfg, q, c);
        PlainFeedInv(cfg, Base(q), q.cmp.buf);
        PlainNeverCompares(cfg, k, c);
      } else {
        InProgressSame(cfg, q, c);
        PlainFeedSnoc(cfg, Base(q), q.cmp.buf, c);
      }
    } else if StartsComparison(cfg, q.core.state, c) {
      ComparisonStarts(cfg, q, c);
      StartInv(cfg, q, c);
      PlainFeedOne(cfg, Base(StartComparison(cfg, q, c)), c);
      StartLetter(cfg, c);
      FallbackStateIsAlike(cfg, q.core, c);
    } else {
      PlainNeverCompares(cfg, k, c);
    }
  }

  lemma StartLetter(cfg: Config, c: char)
    requires WellShaped(cfg) && InCompareSet(cfg.items, c)
    ensures IsLetterOrDigit(c)
  {
    var i :| 0 <= i < |cfg.items| && cfg.items[i].str != "" && cfg.items[i].str[0] == c;
    FirstLetter(cfg, i);
  }

  lemma PlainNeverCompares(cfg: Config, k: Core, c: char)
    requires CoreInv(cfg, k) && !Comparing(k.state)
    ensures !Comparing(PlainStep(cfg, k, c).state)
  {
    hide PlainStep, CoreInv;
    PlainInv(cfg, k, c);
  }

  lemma InProgressSame(cfg: Config, q: Parser, c: char)
    requires Inv(cfg, q) && Comparing(q.core.state) && CompareFixed(cfg, Promoted(q), c).0.InProgress?
    ensures var n := Step(cfg, q, c);
      Comparing(n.core.state) && Inv(cfg, n) && Base(n) == Base(q) && n.cmp.buf == q.cmp.buf + [c]
  {
    hide CoreInv;
    StepInv(cfg, q, c);
    var p1 := Promoted(q);
    assert Base(p1) == Base(q);
    ScanKeepsShape(cfg, p1, c);
    var n := Step(cfg, q, c);
    assert n.core.buf[..|n.core.buf| - n.cmp.pos] == q.core.buf[..|q.core.buf| - q.cmp.pos];
  }

  /** Looking for fixed URLs is invisible until one is completed: after any text
      in which none was, the parser is exactly where one without fixed URLs is,
      or its comparison covers precisely the difference. */
  lemma {:induction false} UnmatchedRun(cfg: Config, p: Parser, s: string)
    requires Inv(cfg, p) && !Comparing(p.core.state) && NothingCompleted(cfg, p, s)
    ensures SameAsPlain(cfg, Feed(cfg, p, s), PlainFeed(cfg, p.core, s))
  {
    hide PlainStep, CoreInv;
    if s == "" {
    } else {
      var u, c := s[..|s| - 1], s[|s| - 1];
      UnmatchedRun(cfg, p, u);
      StepSameAsPlain(cfg, Feed(cfg, p, u), PlainFeed(cfg, p.core, u), c);
    }
  }

  lemma FeedSnoc(cfg: Config, p: Parser, s: string, c: char)
    requires Inv(cfg, p)
    ensures Feed(cfg, p, s + [c]) == Step(cfg, Feed(cfg, p, s), c)
  {
    hide Step, Inv;
    assert (s + [c])[..|s|] == s;
  }

  lemma FinishSaves(cfg: Config, q: Parser)
    ensures Finish(cfg, q).core.report == SaveUrl(cfg, q.core).1.report
  {
    if !SaveUrl(cfg, q.core).0 {
      UnsavedReportsNothing(cfg, q.core);
    }
  }

  /** A shared-file id needs 32 characters before a space but 33 at the end of a
      text, because the space itself is counted. */
  lemma FilesharingIdLengths(cfg: Config, p: Parser)
    requires Inv(cfg, p) && p.core.state.FilesharingId? && p.core.report.NoUrl?
    ensures var n := Step(cfg, p, ' ').core;
      if p.core.idLength >= 32 then n.report.Reported? && n.report.found.kind == Filesharing else n == Fresh()
    ensures var n := Finish(cfg, p).core;
      if p.core.idLength >= 33 then n.report.Reported? && n.report.found.kind == Filesharing else n.report.NoUrl?
  {
  }
}
