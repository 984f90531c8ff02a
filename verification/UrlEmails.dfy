/** Which e-mail addresses are reported although their domain is not accepted. */
module UrlEmails {
  import opened UrlTypes
  import opened UrlMachine
  import opened UrlInvariant
  import opened UrlReplay

  predicate UncheckedEmail(cfg: Config, k: Core) {
    k.report.Reported? && k.report.found.kind.Email? && !DomainAccepted(cfg, k)
  }

  /** An e-mail address that is not only a name and one label, with an unaccepted domain. */
  predicate EmailElsewhere(cfg: Config, k: Core) {
    k.isEmail && k.protocol.NoProtocol? && k.segments != 1 && !DomainAccepted(cfg, k)
  }

  /** At a question mark the domain is not looked at, nor at a space behind a dot, where
      the label before the dot has just been counted. */
  predicate PassesUnchecked(cfg: Config, k: Core, c: char) {
    || (k.state.HostN? && c == '?' && EmailElsewhere(cfg, k))
    || (k.state == InHost(HostDot) && IsSpace(c) && EmailElsewhere(cfg, LabelCounted(k)))
  }

  function LabelCounted(k: Core): Core { k.(ipv4 := k.ipv4 + if IsIpv4Segment(k.domain) then 1 else 0) }

  /** The states behind a host's first dot or inside its port in which the end of a text saves a URL. */
  predicate HostOpen(s: State) { s.HostN? || (s.InHost? && !s.part.Password? && !s.part.HostColon?) }

  lemma SavedEmail(cfg: Config, k: Core)
    requires CoreInv(cfg, k) && k.report.NoUrl?
    ensures UncheckedEmail(cfg, SaveUrl(cfg, k).1) <==> HostOpen(k.state) && EmailElsewhere(cfg, k)
  {
    hide TailLength, IsImage, IsVideo;
    if SaveUrl(cfg, k).0 {
      SavedHasBuffer(cfg, k);
      SaveSplits(cfg, k);
    }
    assert DomainAccepted(cfg, Trimmed(k)) == DomainAccepted(cfg, k);
  }

  /** Which outcomes of the big switch save such an address. */
  predicate SavesUnchecked(cfg: Config, o: Outcome) {
    o.Save? && HostOpen(o.done.state) && EmailElsewhere(cfg, o.done)
  }

  lemma HostNUnchecked(cfg: Config, k: Core, c: char)
    requires k.state.HostN?
    ensures SavesUnchecked(cfg, HostNStep(cfg, k, c)) <==> PassesUnchecked(cfg, k, c)
  {
    hide Accepted;
  }

  lemma HostPartUnchecked(cfg: Config, k: Core, c: char)
    requires k.state.InHost?
    ensures SavesUnchecked(cfg, HostPartStep(cfg, k, c)) <==> PassesUnchecked(cfg, k, c)
  {
    hide Accepted, IsIpv4Segment, IsAllowable;
    assert IsSpace(c) ==> !IsLetterOrDigit(c);
  }

  lemma EarlyChecked(cfg: Config, k: Core, c: char)
    requires CoreInv(cfg, k) && !Comparing(k.state)
    requires EarlyState(k.state) || k.state.Lookup? || k.state.LookupWithoutFixed? || k.state.Host?
    ensures !SavesUnchecked(cfg, PlainOutcome(cfg, k, c))
  {
    hide ProtocolNext;
  }

  lemma LateChecked(cfg: Config, k: Core, c: char)
    requires CoreInv(cfg, k) && (BehindHost(k.state) || k.state.FilesharingId? || k.state.ProfileId?)
    ensures !SavesUnchecked(cfg, PlainOutcome(cfg, k, c))
  {
    hide ExtensionNext, ExtensionStart, Accepted, IsAllowable;
  }

  lemma OutcomeUnchecked(cfg: Config, k: Core, c: char)
    requires CoreInv(cfg, k) && !Comparing(k.state)
    ensures SavesUnchecked(cfg, PlainOutcome(cfg, k, c)) <==> PassesUnchecked(cfg, k, c)
  {
    hide SavesUnchecked, EmailElsewhere, CoreInv;
    if k.state.HostN? {
      HostNUnchecked(cfg, k, c);
    } else if k.state.InHost? {
      HostPartUnchecked(cfg, k, c);
    } else if BehindHost(k.state) || k.state.FilesharingId? || k.state.ProfileId? {
      LateChecked(cfg, k, c);
    } else {
      EarlyChecked(cfg, k, c);
    }
  }

  lemma PlainUnchecked(cfg: Config, k: Core, c: char)
    requires CoreInv(cfg, k) && !Comparing(k.state) && k.report.NoUrl?
    ensures UncheckedEmail(cfg, PlainStep(cfg, k, c)) <==> PassesUnchecked(cfg, k, c)
  {
    hide PassesUnchecked, EmailElsewhere, HostOpen, SaveUrl, PlainOutcome;
    OutcomeHolds(cfg, k, c);
    OutcomeUnchecked(cfg, k, c);
    var o := PlainOutcome(cfg, k, c);
    if o.Save? {
      SavedEmail(cfg, o.done);
      if !SaveUrl(cfg, o.done).0 {
        UnsavedReportsNothing(cfg, o.done);
      }
    }
  }

  /** In every reachable state and for every character: an e-mail address whose domain is not
      accepted is reported at a question mark in its last label, at a space behind its last dot
      and nowhere else inside a text. */
  lemma EmailUncheckedIff(cfg: Config, p: Parser, c: char)
    requires Inv(cfg, p) && p.core.report.NoUrl?
    ensures UncheckedEmail(cfg, Step(cfg, p, c).core) <==> PassesUnchecked(cfg, p.core, c)
  {
    hide PassesUnchecked, UncheckedEmail, PlainStep, CoreInv, CompareFixed;
    OnlyInHost(cfg, p.core, c);
    if Comparing(p.core.state) {
      CanGiveBack(cfg, p, c);
      if CompareFixed(cfg, Promoted(p), c).0.NoMatch? {
        var k := PlainFeed(cfg, Base(p), p.cmp.buf);
        FailedComparison(cfg, p, c);
        ReplayKeepsAll(cfg, Base(p), p.cmp.buf);
        PlainUnchecked(cfg, k, c);
        NoEmailYet(cfg, k, c);
      } else {
        ScanKeepsShape(cfg, Promoted(p), c);
        NothingReported(cfg, Step(cfg, p, c).core);
      }
    } else if StartsComparison(cfg, p.core.state, c) {
      ComparisonStarts(cfg, p, c);
      NothingReported(cfg, Step(cfg, p, c).core);
    } else {
      PlainUnchecked(cfg, p.core, c);
    }
  }

  lemma OnlyInHost(cfg: Config, k: Core, c: char)
    ensures PassesUnchecked(cfg, k, c) ==> k.state.HostN? || k.state.InHost?
  {
  }

  lemma NoEmailYet(cfg: Config, k: Core, c: char)
    requires !k.isEmail
    ensures !PassesUnchecked(cfg, k, c)
  {
  }

  lemma NothingReported(cfg: Config, k: Core)
    requires k.report.NoUrl?
    ensures !UncheckedEmail(cfg, k)
  {
  }

  /** At the end of a text the domain is never looked at. */
  lemma EmailUncheckedAtEndIff(cfg: Config, p: Parser)
    requires Inv(cfg, p) && p.core.report.NoUrl?
    ensures UncheckedEmail(cfg, Finish(cfg, p).core) <==> HostOpen(p.core.state) && EmailElsewhere(cfg, p.core)
  {
    hide UncheckedEmail, SaveUrl, EmailElsewhere, HostOpen;
    SavedEmail(cfg, p.core);
  }
}
