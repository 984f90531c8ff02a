/** The streaming parser itself: fields updated in place, one character at a time. */
module UrlParsing {
  import opened UrlTypes
  import opened UrlMachine
  import opened UrlInvariant
  import opened UrlReplay

  const ICQ_COM := "icq.com/files/"
  const CHAT_MY_COM := "chat.my.com/files/"
  const FILES_ICQ_NET := "files.icq.net"
  const FILES_MYTEAM_MAIL_RU := "files.myteam.mail.ru"
  const GET_SUFFIX := "/get/"

  function FilesItem(host: string): Item { Item(host + GET_SUFFIX, FilesharingId, |host| - 1) }

  /** The hosts of shared files: two more of them in the business build. */
  function FilesUrls(filesUrl: string, biz: bool): seq<string> {
    if !biz then [filesUrl]
    else if filesUrl == FILES_ICQ_NET || filesUrl == FILES_MYTEAM_MAIL_RU then [FILES_ICQ_NET, FILES_MYTEAM_MAIL_RU]
    else [FILES_ICQ_NET, FILES_MYTEAM_MAIL_RU, filesUrl]
  }

  function BuiltInItems(filesUrl: string, biz: bool): seq<Item> {
    var hosts := FilesUrls(filesUrl, biz);
    seq(|hosts|, i requires 0 <= i < |hosts| => FilesItem(hosts[i]))
    + [Item(ICQ_COM, FilesharingId, |"icq.com"| - 1), Item(CHAT_MY_COM, FilesharingId, |"chat.my.com"| - 1)]
  }

  /** A new parser. The members of a comparison that the source leaves unset are
      written before they are read. */
  function NewParser(cfg: Config): Parser {
    Parser(Fresh(), Comparison("", 0, seq(|cfg.items|, _ => false), Lookup, Lookup, 0))
  }

  function AsOutcome(act: Action, k: Core): Outcome {
    match act
    case Break => Consume(k)
    case ResetParser => Restart
    case UriFound => Save(k)
    case Return => Ignore(k)
    case Reprocess => Restart
  }

  class UrlParser {
    const biz: bool
    const dit: bool
    const tld: string -> bool

    var items: seq<Item>
    var compareSet: set<char>

    var state: State
    var protocol: Protocol
    var buf: string
    var domain: string
    var extension: Extension
    var isNotEmail: bool
    var isEmail: bool
    var hasPrefix: bool
    var segments: int
    var ipv4: int
    var idLength: nat
    var report: Report
    var needDomain: bool
    var tail: nat

    var compareBuf: string
    var comparePos: nat
    var matched: seq<bool>
    var okState: State
    var fallbackState: State
    var safePosition: int

    ghost function Cfg(): Config
      reads this
    {
      Config(items, biz, dit, tld)
    }

    ghost function Seen(): Core
      reads this
    {
      Core(state, protocol, buf, domain, extension, isNotEmail, isEmail, hasPrefix, segments, ipv4, idLength, report,
           needDomain, tail)
    }

    ghost function Running(): Comparison
      reads this
    {
      Comparison(compareBuf, comparePos, matched, okState, fallbackState, safePosition)
    }

    ghost function Value(): Parser
      reads this
    {
      Parser(Seen(), Running())
    }

    ghost predicate Valid()
      reads this
    {
      && Inv(Cfg(), Value())
      && |matched| == |items|
      && forall c :: c in compareSet <==> InCompareSet(items, c)
    }

    /** A parser for the built-in fixed URLs. */
    constructor (filesUrl: string, biz: bool, dit: bool, tld: string -> bool)
      requires WellShaped(Config(BuiltInItems(filesUrl, biz), biz, dit, tld))
      ensures Valid() && Value() == NewParser(Cfg())
      ensures Cfg() == Config(BuiltInItems(filesUrl, biz), biz, dit, tld)
    {
      var all := BuiltInItems(filesUrl, biz);
      this.biz, this.dit, this.tld := biz, dit, tld;
      items := all;
      matched := seq(|all|, _ => false);
      compareSet := set i | 0 <= i < |all| && all[i].str != "" :: all[i].str[0];
      state, protocol, buf, domain, extension := Lookup, NoProtocol, "", "", NoExtension;
      isNotEmail, isEmail, hasPrefix := false, false, false;
      segments, ipv4, idLength := 1, 1, 0;
      report, needDomain, tail := NoUrl, true, 0;
      compareBuf, comparePos, okState, fallbackState, safePosition := "", 0, Lookup, Lookup, 0;
    }

    /** More fixed URLs; an empty one is skipped. */
    method AddFixedUrls(more: seq<Item>)
      requires Valid() && Value() == NewParser(Cfg())
      requires forall i :: 0 <= i < |more| && more[i].str != "" ==> WellShapedItem(tld, more[i])
      modifies `items, `compareSet, `matched
      ensures Valid() && Value() == NewParser(Cfg())
      ensures items == old(items) + NonEmpty(more)
    {
      hide InCompareSet, PhaseAfter;
      for i := 0 to |more|
        invariant |matched| == |items| && matched == seq(|items|, _ => false)
        invariant items == old(items) + NonEmpty(more[..i])
        invariant forall j :: 0 <= j < |items| ==> WellShapedItem(tld, items[j])
        invariant forall c :: c in compareSet <==> InCompareSet(items, c)
      {
        assert more[..i + 1][..i] == more[..i];
        if more[i].str != "" {
          CompareSetGrows(items, more[i]);
          compareSet := compareSet + {more[i].str[0]};
          items := items + [more[i]];
          matched := matched + [false];
        }
      }
      assert more[..|more|] == more;
    }

    static lemma CompareSetGrows(items: seq<Item>, item: Item)
      requires item.str != ""
      ensures forall c :: InCompareSet(items + [item], c) <==> InCompareSet(items, c) || c == item.str[0]
    {
      var all := items + [item];
      assert all[|items|] == item;
      forall c | InCompareSet(items, c)
        ensures InCompareSet(all, c)
      {
        var i :| 0 <= i < |items| && items[i].str != "" && items[i].str[0] == c;
        assert all[i] == items[i];
      }
    }

    static function NonEmpty(s: seq<Item>): (r: seq<Item>)
    {
      if s == [] then []
      else NonEmpty(s[..|s| - 1]) + if s[|s| - 1].str != "" then [s[|s| - 1]] else []
    }

    method Reset()
      modifies `state, `protocol, `buf, `domain, `extension, `comparePos, `isNotEmail, `isEmail, `hasPrefix
      modifies `segments, `ipv4, `idLength, `report, `needDomain, `tail
      ensures Seen() == Fresh() && Running() == old(Running()).(pos := 0)
      ensures old(Valid()) ==> Valid()
    {
      ResetText();
      ResetFlags();
    }

    method ResetText()
      modifies `state, `protocol, `buf, `domain, `comparePos, `extension, `report, `tail
      ensures state == Lookup && protocol == NoProtocol && buf == "" && domain == ""
      ensures comparePos == 0 && extension == NoExtension && report == NoUrl && tail == 0
    {
      state, protocol := Lookup, NoProtocol;
      buf, domain := "", "";
      comparePos := 0;
      extension := NoExtension;
      report, tail := NoUrl, 0;
    }

    method ResetFlags()
      modifies `isNotEmail, `isEmail, `hasPrefix, `segments, `ipv4, `idLength, `needDomain
      ensures !isNotEmail && !isEmail && !hasPrefix && segments == 1 && ipv4 == 1 && idLength == 0 && needDomain
    {
      isNotEmail, isEmail, hasPrefix := false, false, false;
      segments, ipv4, idLength := 1, 1, 0;
      needDomain := true;
    }

    // ----- The switch -----

    method ReadLookup(c: char) returns (act: Action)
      modifies `state, `protocol, `domain
      ensures !act.Reprocess? && AsOutcome(act, Seen()) == LookupStep(old(Seen()), c)
    {
      act := Break;
      if Is(c, 'w') {
        state := InPrefix(Www2);
      } else if Is(c, 'h') {
        protocol, state := Http, InProtocol(T1);
      } else if Is(c, 'f') {
        protocol, state := Ftp, InProtocol(T1);
      } else if Is(c, 'i') {
        protocol, state := Icq, InProtocol(T1);
      } else if Is(c, 'm') {
        protocol, state := Agent, InProtocol(T1);
      } else if IsLetterOrDigit(c) {
        domain, state := domain + [c], Host;
      } else {
        act := Return;
      }
    }

    method ReadProtocol(c: char) returns (act: Action)
      requires state.InProtocol?
      modifies `state, `protocol
      ensures if act.Reprocess? then state.Host? && ProtocolStep(Cfg(), old(Seen()), c) == HostStep(Seen(), c)
              else AsOutcome(act, Seen()) == ProtocolStep(Cfg(), old(Seen()), c)
      ensures !act.Return?
    {
      match ProtocolNext(Config(items, biz, dit, tld), state.proto, protocol, c)
      case Advance(to, next) =>
        state, protocol, act := to, next, Break;
      case AsHost(kept) =>
        state, protocol, act := Host, kept, Reprocess;
      case Drop =>
        act := ResetParser;
    }

    method ReadPrefix(c: char) returns (act: Action)
      requires state.InPrefix?
      modifies `state, `domain, `hasPrefix
      ensures !act.Reprocess? && AsOutcome(act, Seen()) == PrefixStep(old(Seen()), c)
    {
      hide IsAllowable;
      act := Break;
      match state.prefix
      case CheckWww =>
        if Is(c, 'w') {
          state := InPrefix(Www2);
        } else if IsAllowable(c) {
          domain, state := domain + [c], Host;
        } else {
          act := ResetParser;
        }
      case Www2 =>
        if Is(c, 'w') {
          state := InPrefix(Www3);
        } else if IsAllowable(c) {
          state := Host;
        } else {
          act := ResetParser;
        }
      case Www3 =>
        if Is(c, 'w') {
          state := InPrefix(Www4);
        } else if IsAllowable(c) {
          state := Host;
        } else {
          act := ResetParser;
        }
      case Www4 =>
        if c == '.' {
          state := InPrefix(CheckFilesharing);
        } else if IsAllowable(c) {
          state := Host;
        } else {
          act := ResetParser;
        }
      case CheckFilesharing =>
        if IsAllowable(c) {
          domain, state := domain + [c], Host;
        } else {
          act := ResetParser;
        }
      case DelimiterSlash1 =>
        if c == '/' {
          state := InPrefix(DelimiterSlash2);
        } else {
          act := ResetParser;
        }
      case DelimiterSlash2 =>
        if c == '/' {
          hasPrefix, state := true, InPrefix(CheckWww);
        } else {
          act := ResetParser;
        }
    }

    method ReadId(c: char) returns (act: Action)
      modifies `idLength
      ensures !act.Reprocess? && AsOutcome(act, Seen()) == IdStep(old(Seen()), c)
    {
      idLength := idLength + 1;
      if IsSpace(c) {
        // The counter was just raised, so the branch for a short id never runs.
        assert idLength >= MIN_PROFILE_ID_LENGTH;
        act := UriFound;
      } else if !IsIdChar(c) {
        act := ResetParser;
      } else {
        act := Break;
      }
    }

    method ReadHost(c: char) returns (act: Action)
      modifies `state, `domain
      ensures !act.Reprocess? && AsOutcome(act, Seen()) == HostStep(old(Seen()), c)
    {
      act := Break;
      if c == '.' {
        state := InHost(HostDot);
      } else if c == ':' {
        state := InHost(HostColon);
      } else if c == '@' {
        state := InHost(HostAt);
      } else if c == '/' {
        if protocol.NoProtocol? {
          act := ResetParser;
        }
      } else if c == '?' {
        if !protocol.Icq? && !protocol.Agent? && !protocol.Biz? && !protocol.Dit? {
          act := ResetParser;
        }
      } else if !IsAllowable(c) {
        act := if protocol.NoProtocol? then ResetParser else UriFound;
      } else {
        domain := domain + [c];
      }
    }

    method ReadHostN(c: char) returns (act: Action)
      modifies `state, `domain, `isEmail
      ensures !act.Reprocess? && AsOutcome(act, Seen()) == HostNStep(Cfg(), old(Seen()), c)
    {
      var ok := IsValidTopLevelDomain();
      act := Break;
      if c == '.' {
        state := InHost(HostDot);
      } else if c == ':' {
        if !isEmail && ok {
          state := InHost(HostColon);
        } else {
          act := ResetParser;
        }
      } else if c == '@' {
        if isEmail || isNotEmail {
          act := ResetParser;
        } else {
          state, isEmail := Host, true;
        }
      } else if c == '/' {
        if !isEmail && ok {
          state := InPath(HostSlash);
        } else {
          act := ResetParser;
        }
      } else if c == '?' {
        if isEmail {
          act := UriFound;
        } else if ok {
          state := InPath(Query);
        } else {
          act := ResetParser;
        }
      } else if c == '#' {
        if !isEmail && ok {
          state := InPath(Query);
        } else {
          act := ResetParser;
        }
      } else if IsSpace(c) || IsEnding(c) {
        act := if ok then UriFound else ResetParser;
      } else if !IsLetterOrDigit(c) && c != '-' {
        act := ResetParser;
      } else {
        domain := domain + [c];
      }
    }

    /** `is_valid_top_level_domain(domain_)`. */
    method IsValidTopLevelDomain() returns (ok: bool)
      ensures ok == DomainAccepted(Cfg(), Seen())
    {
      if domain == "" {
        ok := false;
      } else if !protocol.NoProtocol? {
        ok := true;
      } else if segments == 4 && ipv4 == 4 {
        ok := true;
      } else {
        ok := tld(Lower(domain));
      }
    }

    method ReadHostPart(c: char) returns (act: Action)
      requires state.InHost?
      modifies `state, `domain, `isEmail, `segments, `ipv4
      ensures !act.Reprocess? && AsOutcome(act, Seen()) == HostPartStep(Cfg(), old(Seen()), c)
    {
      hide IsAllowable, IsIpv4Segment, IsLetterOrDigit, Accepted;
      act := Break;
      match state.part
      case Password =>
        if c == '@' {
          state := Host;
        } else if !IsAllowable(c) {
          act := ResetParser;
        }
      case HostAt =>
        if !IsAllowable(c) {
          act := ResetParser;
        } else if !protocol.NoProtocol? {
          state := Host;
        } else if isEmail || isNotEmail {
          act := ResetParser;
        } else {
          state, isEmail := Host, true;
        }
      case HostDot =>
        act := ReadHostDot(c);
      case HostColon =>
        if IsDigit(c) {
          state := InHost(Port);
        } else if IsAllowable(c) {
          state := InHost(Password);
        } else {
          act := ResetParser;
        }
      case Port =>
        act := ReadPort(c);
      case PortDot =>
        if IsDigit(c) {
          state := InHost(Port);
        } else {
          act := ResetParser;
        }
    }

    method ReadHostDot(c: char) returns (act: Action)
      requires state == InHost(HostDot)
      modifies `state, `domain, `segments, `ipv4
      ensures !act.Reprocess? && AsOutcome(act, Seen()) == HostPartStep(Cfg(), old(Seen()), c)
    {
      hide IsIpv4Segment, IsLetterOrDigit, IsAllowable, Accepted;
      act := Break;
      segments := segments + 1;
      if IsIpv4Segment(domain) {
        ipv4 := ipv4 + 1;
      }
      if IsLetterOrDigit(c) {
        domain, state := [c], HostN;
      } else if IsSpace(c) {
        segments, act := segments - 1, UriFound;
      } else {
        act := ResetParser;
      }
    }

    method ReadPort(c: char) returns (act: Action)
      requires state == InHost(Port)
      modifies `state
      ensures !act.Reprocess? && AsOutcome(act, Seen()) == HostPartStep(Cfg(), old(Seen()), c)
    {
      hide IsIpv4Segment, IsAllowable, Accepted;
      act := Break;
      if c == '/' {
        var ok := IsValidTopLevelDomain();
        if ok {
          state := InPath(PortSlash);
        } else {
          act := ResetParser;
        }
      } else if IsDigit(c) {
      } else if c == '@' {
        state := Host;
      } else if IsAllowable(c) {
        state := InHost(Password);
      } else {
        act := ResetParser;
      }
    }

    method ReadPath(c: char) returns (act: Action)
      requires state.InPath?
      modifies `state, `extension
      ensures !act.Reprocess? && AsOutcome(act, Seen()) == PathStep(Cfg(), old(Seen()), c)
    {
      hide IsAllowable, IsEnding, Accepted;
      act := Break;
      match state.path
      case HostSlash =>
        if c == '/' {
        } else if IsAllowable(c) {
          state := InPath(Path);
        } else {
          act := if IsSpace(c) then UriFound else ResetParser;
        }
      case PortSlash =>
        if IsLetterOrDigit(c) {
          state := InPath(Path);
        } else {
          act := if IsSpace(c) then UriFound else ResetParser;
        }
      case Path =>
        if c == '.' {
          state := InPath(PathDot);
        } else if c == '/' {
          state := InPath(PathSlash);
        } else if c == '?' {
          state := InPath(Query);
        } else if IsSpace(c) {
          act := UriFound;
        } else if IsAllowable(c) {
        } else if IsEnding(c) {
          var ok := IsValidTopLevelDomain();
          act := if ok then UriFound else ResetParser;
        }
      case PathDot =>
        act := ReadPathDot(c);
      case PathSlash =>
        if IsSpace(c) {
          act := UriFound;
        } else if c == '?' {
          state := InPath(Query);
        } else if IsAllowable(c) {
          state := InPath(Path);
        } else {
          act := ResetParser;
        }
      case QueryOrEnd =>
        if IsSpace(c) || c == '>' {
          act := UriFound;
        } else if c == '?' || c == '!' || c == ',' || c == '#' || c == '/' || c == ':' || c == '.' {
          state := InPath(Query);
        } else if c == '_' {
          state := InPath(Path);
        } else if IsLetterOrDigit(c) {
          extension, state := NoExtension, InPath(Query);
        } else {
          act := ResetParser;
        }
      case Query =>
        if IsSpace(c) {
          act := UriFound;
        } else if !IsAllowable(c) {
          act := ResetParser;
        }
    }

    method ReadPathDot(c: char) returns (act: Action)
      modifies `state
      ensures !act.Reprocess? && AsOutcome(act, Seen()) == PathDotStep(old(Seen()), c)
    {
      act := Break;
      if ExtensionStart(c) != InPath(PathDot) {
        state := ExtensionStart(c);
      } else if IsAllowable(c) {
        state := InPath(Path);
      } else {
        act := if IsSpace(c) then UriFound else ResetParser;
      }
    }

    method ReadExtension(c: char) returns (act: Action)
      requires state.InExtension?
      modifies `state, `extension
      ensures !act.Reprocess? && AsOutcome(act, Seen()) == ExtensionStep(old(Seen()), c)
    {
      act := Break;
      match ExtensionNext(state.letter, c)
      case More(to) =>
        state := InExtension(to);
      case Whole(e) =>
        extension, state := e, InPath(QueryOrEnd);
      case Other =>
        if IsAllowable(c) {
          state := InPath(Path);
        } else {
          act := ResetParser;
        }
    }

    // ----- Saving -----

    method SaveUrl() returns (saved: bool)
      requires buf == "" ==> Seen() == Fresh().(state := state) && (state.Lookup? || state.LookupWithoutFixed?)
      requires buf != "" ==> IsLetterOrDigit(buf[0])
      modifies `buf, `tail, `report
      ensures (saved, Seen()) == UrlMachine.SaveUrl(Cfg(), old(Seen()))
    {
      hide MakeUrl, KindOf, TailLength, IsLetterOrDigit;
      if NeverSaved(state) {
        return false;
      }
      if state.CompareSafe? {
        report := Reported(MakeUrl(Current(), SiteKind(protocol)));
        return true;
      }
      if state.ProfileId? {
        report := Reported(MakeUrl(Current(), Profile));
        return true;
      }
      if state.Host? && protocol.NoProtocol? {
        return false;
      }
      if segments == 1 && !state.FilesharingId? && protocol.NoProtocol? {
        return false;
      }
      TrimTail();
      // A closing bracket is an ending character, so the source's second look at one never finds it.
      assert buf[|buf| - 1] != ')';
      var ok, kind := Classify();
      if ok {
        report := Reported(MakeUrl(Current(), kind));
      }
      return ok;
    }

    function Current(): (k: Core)
      reads this
      ensures k == Seen()
    {
      Core(state, protocol, buf, domain, extension, isNotEmail, isEmail, hasPrefix, segments, ipv4, idLength, report,
           needDomain, tail)
    }

    /** Moves the ending characters at the end of the buffer to the tail. */
    method TrimTail()
      requires buf != "" && IsLetterOrDigit(buf[0])
      modifies `buf, `tail
      ensures Seen() == Trimmed(old(Seen()))
      ensures buf != "" && !IsEnding(buf[|buf| - 1])
    {
      ghost var n := TailLength(buf);
      while IsEnding(buf[|buf| - 1])
        invariant buf != "" && buf[0] == old(buf)[0]
        invariant old(tail) <= tail <= old(tail) + n
        invariant buf == old(buf)[..|old(buf)| - (tail - old(tail))]
        invariant TailLength(buf) == n - (tail - old(tail))
        decreases |buf|
      {
        buf := buf[..|buf| - 1];
        tail := tail + 1;
      }
    }

    method Classify() returns (ok: bool, kind: UrlKind)
      ensures (ok, kind) == KindOf(Cfg(), Seen())
    {
      if isEmail && protocol.NoProtocol? {
        return true, Email;
      }
      if IsImage(extension) {
        return true, Image;
      }
      if IsVideo(extension) {
        return true, Video;
      }
      if state.FilesharingId? && idLength >= MIN_FILESHARING_ID_LENGTH {
        return true, Filesharing;
      }
      var accepted := IsValidTopLevelDomain();
      return !needDomain || accepted, SiteKind(protocol);
    }

    // ----- Comparing -----

    /** The loop of `compare_fixed_urls` over all fixed URLs. */
    method ScanFixedUrls(c: char) returns (partial: bool, ended: bool, minSafe: int)
      requires |matched| == |items|
      modifies `matched, `okState
      ensures Scan(matched, partial, ended, minSafe, okState) == ScanItems(items, old(Running()), c, |items|)
      ensures Seen() == old(Seen()) && Running() == old(Running()).(matched := matched, ok := okState)
    {
      partial, ended, minSafe := false, true, -1;
      for i := 0 to |items|
        invariant |matched| == |items|
        invariant Scan(matched, partial, ended, minSafe, okState) == ScanItems(items, old(Running()), c, i)
        invariant forall j :: i <= j < |items| ==> matched[j] == old(matched)[j]
      {
        if (comparePos == 0 || matched[i]) && comparePos < |items[i].str| {
          var m := IsEqual(c, items[i].str[comparePos]);
          matched := matched[i := m];
          partial := partial || m;
          ended := ended && |items[i].str| - 1 == comparePos;
          if (m && minSafe > items[i].safe) || minSafe == -1 {
            minSafe := items[i].safe;
          }
          if ended && m {
            okState := items[i].ok;
          }
        }
      }
    }

    method KeepCompared(c: char, minSafe: int)
      requires comparePos == |compareBuf|
      modifies `buf, `compareBuf, `comparePos, `safePosition
      ensures var k := old(Seen()); Seen() == k.(buf := k.buf + [c])
      ensures var r := old(Running()); Running() == r.(buf := r.buf + [c], pos := r.pos + 1, safe := minSafe)
    {
      compareBuf := compareBuf + [c];
      assert compareBuf[comparePos] == c;
      buf := buf + [compareBuf[comparePos]];
      comparePos := comparePos + 1;
      safePosition := minSafe;
    }

    method CompareFixedUrls(c: char) returns (r: CompareResult)
      requires |matched| == |items| && comparePos == |compareBuf|
      modifies `buf, `matched, `okState, `compareBuf, `comparePos, `safePosition
      ensures (r, Value()) == CompareFixed(Cfg(), old(Value()), c)
      ensures |matched| == |items|
    {
      hide ScanItems, Seen, Running;
      var partial, ended, minSafe := ScanFixedUrls(c);
      if partial {
        KeepCompared(c, minSafe);
      }
      r := if partial && !ended then InProgress else if partial then Match else NoMatch;
    }

    method PrepareComparison(fallback: State)
      modifies `matched, `compareBuf, `comparePos, `safePosition, `fallbackState
      ensures Seen() == old(Seen())
      ensures Running() == Comparison("", 0, seq(|items|, _ => false), okState, fallback, 0)
    {
      comparePos, safePosition, compareBuf, fallbackState := 0, 0, "", fallback;
      matched := seq(|items|, _ => false);
    }

    method SetState(s: State)
      modifies `state
      ensures Seen() == old(Seen()).(state := s) && Running() == old(Running())
    {
      state := s;
    }

    method StartFixedUrlsCompare(fallback: State, c: char)
      requires |matched| == |items| && fallback == if state.Lookup? then LookupWithoutFixed else Host
      modifies `state, `buf, `matched, `okState, `compareBuf, `comparePos, `safePosition, `fallbackState
      ensures Value() == StartComparison(Cfg(), old(Value()), c)
      ensures |matched| == |items|
    {
      hide CompareFixed;
      PrepareComparison(fallback);
      var r := CompareFixedUrls(c);
      match r
      case Match => SetState(okState);
      case NoMatch => SetState(fallbackState);
      case InProgress => SetState(Compare);
    }

    // ----- One character -----

    static function Rank(s: State): nat { if Comparing(s) then 3 else if s.InProtocol? then 1 else 0 }

    /** Reads one character. The recursion through `Fallback` ends because the
        characters given back are never compared again. */
    method Process(c: char)
      requires Valid()
      modifies this
      ensures Valid() && items == old(items) && compareSet == old(compareSet)
      ensures Value() == Step(Cfg(), old(Value()), c)
      decreases Rank(state), 2
    {
      hide PlainParserStep, CompareStep, StartComparison, Inv;
      StepInv(Cfg(), Value(), c);
      if Comparing(state) {
        ProcessCompare(c);
      } else if (state.Lookup? || (state == InPrefix(CheckWww) && !Is(c, 'w')) || state == InPrefix(CheckFilesharing))
                && c in compareSet {
        StartFixedUrlsCompare(if state.Lookup? then LookupWithoutFixed else Host, c);
      } else {
        ProcessPlain(c);
      }
    }

    method ProcessPlain(c: char)
      requires Valid() && !Comparing(state)
      modifies this
      ensures items == old(items) && compareSet == old(compareSet)
      ensures Value() == PlainParserStep(Cfg(), old(Value()), c)
      ensures |matched| == |items|
      decreases Rank(state), 1
    {
      hide PlainOutcome, UrlMachine.SaveUrl, InCompareSet, PhaseAfter, CoreInv, StartsComparison, DomainAccepted;
      SavesText(Cfg(), Seen(), c);
      ghost var p, o := Value(), PlainOutcome(Cfg(), Seen(), c);
      var act := Decide(c);
      if act.Reprocess? {
        HostReprocessed(Cfg(), p, Value(), c);
        Process(c);
      } else {
        Apply(act, c, o);
      }
    }

    static lemma SavesText(cfg: Config, k: Core, c: char)
      requires CoreInv(cfg, k) && !Comparing(k.state)
      ensures var o := PlainOutcome(cfg, k, c); o.Save? ==> o.done.buf != "" && IsLetterOrDigit(o.done.buf[0])
    {
      hide PlainOutcome;
      OutcomeHolds(cfg, k, c);
    }

    static lemma HostReprocessed(cfg: Config, p: Parser, q: Parser, c: char)
      requires !Comparing(p.core.state) && q.core.state.Host? && p.cmp == q.cmp
      requires PlainOutcome(cfg, p.core, c) == PlainOutcome(cfg, q.core, c)
      ensures PlainParserStep(cfg, p, c) == PlainParserStep(cfg, q, c)
      ensures ComparisonShape(cfg, q) && Step(cfg, q, c) == PlainParserStep(cfg, q, c)
    {
      hide PlainOutcome;
    }

    /** Carries out what the switch decided. */
    method Apply(act: Action, c: char, ghost o: Outcome)
      requires !act.Reprocess? && AsOutcome(act, Seen()) == o
      requires act.UriFound? ==> buf != "" && IsLetterOrDigit(buf[0])
      modifies this
      ensures items == old(items) && compareSet == old(compareSet)
      ensures Seen() == Resolve(Cfg(), o, c)
      ensures Running() == if RestartsAfter(Cfg(), o) then old(Running()).(pos := 0) else old(Running())
    {
      match act
      case ResetParser =>
        Reset();
      case UriFound =>
        var saved := SaveUrl();
        if !saved {
          Reset();
        }
      case Break =>
        buf := buf + [c];
      case Return =>
    }

    /** The big switch. */
    method Decide(c: char) returns (act: Action)
      requires Valid() && !Comparing(state)
      modifies `state, `protocol, `domain, `extension, `isEmail, `hasPrefix, `segments, `ipv4, `idLength
      ensures if act.Reprocess? then
                Valid() && old(state).InProtocol? && state.Host?
                && PlainOutcome(Cfg(), old(Seen()), c) == PlainOutcome(Cfg(), Seen(), c)
              else
                AsOutcome(act, Seen()) == PlainOutcome(Cfg(), old(Seen()), c)
    {
      if state.Lookup? || state.LookupWithoutFixed? {
        act := ReadLookup(c);
      } else if state.InProtocol? {
        act := ReadProtocol(c);
      } else if state.InPrefix? {
        act := ReadPrefix(c);
      } else if state.FilesharingId? || state.ProfileId? {
        act := ReadId(c);
      } else if state.Host? {
        act := ReadHost(c);
      } else if state.HostN? {
        act := ReadHostN(c);
      } else if state.InHost? {
        act := ReadHostPart(c);
      } else if state.InPath? {
        act := ReadPath(c);
      } else {
        act := ReadExtension(c);
      }
    }

    method ProcessCompare(c: char)
      requires Valid() && Comparing(state)
      modifies this
      ensures items == old(items) && compareSet == old(compareSet)
      ensures Value() == CompareStep(Cfg(), old(Value()), c)
      ensures |matched| == |items|
      decreases 3, 1
    {
      hide CompareFixed, PlainFeed, PlainParserStep, InCompareSet, PhaseAfter, BaseOk, CoreInv;
      ghost var p := Value();
      CanGiveBack(Cfg(), p, c);
      Promote();
      var r := CompareFixedUrls(c);
      match r
      case NoMatch => Fallback(c);
      case Match => SetState(okState);
      case InProgress =>
    }

    method Promote()
      modifies `state
      ensures Value() == Promoted(old(Value()))
    {
      if state.Compare? && safePosition != 0 && comparePos >= safePosition {
        state := CompareSafe;
      }
    }

    /** Takes the compared characters back and reads them, and then the last one, as plain text. */
    method Fallback(lastChar: char)
      requires WellShaped(Cfg()) && |matched| == |items|
      requires forall c :: c in compareSet <==> InCompareSet(items, c)
      requires |compareBuf| == comparePos <= |buf|
      requires BaseOk(Cfg(), Base(Value())) && PhaseAfter(tld, compareBuf) != Bad
      modifies this
      ensures items == old(items) && compareSet == old(compareSet)
      ensures var p := old(Value());
        Value() == PlainParserStep(Cfg(), p.(core := PlainFeed(Cfg(), Base(p), p.cmp.buf)), lastChar)
      ensures |matched| == |items|
      decreases 2, 0
    {
      hide PlainParserStep, Step, Inv, BaseOk, PhaseAfter, InCompareSet, PlainStep;
      ghost var cfg, b, cmp := Cfg(), Base(Value()), Running();
      state := fallbackState;
      buf := buf[..|buf| - comparePos];
      var text := compareBuf;
      assert PlainFeed(cfg, b, text[..0]) == b;
      for i := 0 to |text|
        invariant Cfg() == cfg && compareSet == old(compareSet) && |matched| == |items|
        invariant Value() == GivenBack(cfg, b, cmp, text[..i])
      {
        GiveBackOne(cfg, b, cmp, text, i);
        Process(text[i]);
      }
      assert text[..|text|] == text;
      GiveBackLast(cfg, b, cmp, text, lastChar);
      Process(lastChar);
    }

    method Finish()
      requires Valid()
      modifies `buf, `tail, `report
      ensures Value() == UrlMachine.Finish(Cfg(), old(Value()))
    {
      var _ := SaveUrl();
    }

    predicate HasUrl()
      reads this
    {
      report.Reported?
    }
  }
}
