/** What one character does to the parser, as a function of the parser's value.
    The class in UrlParser.dfy is proved to compute exactly this. */
module UrlMachine {
  import opened UrlTypes

  // ----- Character classes (one byte a character) -----

  predicate IsSpace(c: char) { c == ' ' || 9 <= c as int <= 13 }

  predicate IsDigit(c: char) { '0' <= c <= '9' }

  predicate IsLetter(c: char) { 'A' <= c <= 'Z' || 'a' <= c <= 'z' }

  predicate IsLetterOrDigit(c: char) { IsLetter(c) || IsDigit(c) }

  predicate IsAllowable(c: char) {
    || IsLetterOrDigit(c)
    || c == '-' || c == '.' || c == '_' || c == '~' || c == '!' || c == '$' || c == '&'
    || c == '\'' || c == '(' || c == ')' || c == '*' || c == '+' || c == ',' || c == ';'
    || c == '=' || c == ':' || c == '%' || c == '?' || c == '#' || c == '@'
    || c == '{' || c == '}' || c == '/' || c == '[' || c == ']' || c == '"'
  }

  predicate IsEnding(c: char) {
    || c == '.' || c == ',' || c == '!' || c == '?' || c == '"' || c == '\'' || c == '`'
    || c == '>' || c == ']' || c == ')' || c == ';'
  }

  predicate IsIdChar(c: char) {
    IsLetterOrDigit(c) || c == '.' || c == '_' || c == '@' || c == '-'
  }

  function ToLower(c: char): char {
    if 'A' <= c <= 'Z' then (c as int + 32) as char else c
  }

  function Lower(s: string): (l: string)
    ensures |l| == |s|
  {
    seq(|s|, i requires 0 <= i < |s| => ToLower(s[i]))
  }

  /** `is_equal`: the character is the text's character, or becomes it in lower case. */
  predicate IsEqual(c: char, t: char) { c == t || ToLower(c) == t }

  /** Is `c` the letter `lower`, in either case? */
  predicate Is(c: char, lower: char) { c == lower || ToLower(c) == lower }

  // ----- Domains -----

  predicate IsIpv4Segment(name: string) {
    1 <= |name| <= 3 && forall i :: 0 <= i < |name| ==> IsDigit(name[i])
  }

  /** `is_valid_top_level_domain`: a protocol or four numeric segments vouch for any name. */
  predicate Accepted(cfg: Config, domain: string, protocol: Protocol, segments: int, ipv4: int) {
    && domain != ""
    && (protocol != NoProtocol || (segments == 4 && ipv4 == 4) || cfg.tld(Lower(domain)))
  }

  predicate DomainAccepted(cfg: Config, k: Core) {
    Accepted(cfg, k.domain, k.protocol, k.segments, k.ipv4)
  }

  // ----- Outcomes -----

  /** What the big switch decides: keep the character, start over, save the URL
      found so far, or leave without keeping the character. */
  datatype Outcome = Consume(next: Core) | Restart | Save(done: Core) | Ignore(same: Core)

  function Fresh(): Core {
    Core(Lookup, NoProtocol, "", "", NoExtension, false, false, false, 1, 1, 0, NoUrl, true, 0)
  }

  function Reset(p: Parser): Parser { Parser(Fresh(), p.cmp.(pos := 0)) }

  function Resolve(cfg: Config, o: Outcome, c: char): Core {
    match o
    case Consume(k) => k.(buf := k.buf + [c])
    case Restart => Fresh()
    case Save(k) => var (ok, saved) := SaveUrl(cfg, k); if ok then saved else Fresh()
    case Ignore(k) => k
  }

  // ----- Saving a URL -----

  function ProtocolPrefix(p: Protocol): string {
    match p
    case NoProtocol => "http://"
    case Http => "http://"
    case Ftp => "ftp://"
    case Https => "https://"
    case Ftps => "ftps://"
    case Icq => "icq://"
    case Agent => "magent://"
    case Biz => "myteam-messenger://"
    case Dit => "itd-messenger://"
  }

  function MakeUrl(k: Core, kind: UrlKind): (u: Url)
    ensures u.original == k.buf && u.kind == kind && u.extension == k.extension
  {
    if !k.hasPrefix && kind != Email then
      var protocol := if k.protocol.NoProtocol? then Http else k.protocol;
      Url(k.buf, ProtocolPrefix(k.protocol) + k.buf, kind, protocol, k.extension)
    else
      Url(k.buf, k.buf, kind, k.protocol, k.extension)
  }

  function SiteKind(p: Protocol): UrlKind { if p.Ftp? || p.Ftps? then FtpSite else Site }

  predicate IsImage(e: Extension) { e in {Bmp, Gif, Jpeg, Jpg, Png, Svg, Tiff} }

  predicate IsVideo(e: Extension) { e in {Gp3, Avi, Flv, Mkv, Mov, Mpeg4, Webm, Wmv} }

  const MIN_FILESHARING_ID_LENGTH := 33
  const MIN_PROFILE_ID_LENGTH := 1

  /** Number of trailing characters that are not kept as part of a URL. */
  function TailLength(s: string): (n: nat)
    ensures n <= |s|
    ensures forall i :: |s| - n <= i < |s| ==> IsEnding(s[i])
    ensures n < |s| ==> !IsEnding(s[|s| - n - 1])
  {
    if s != "" && IsEnding(s[|s| - 1]) then 1 + TailLength(s[..|s| - 1]) else 0
  }

  /** The states in which `save_url` gives up at once. */
  predicate NeverSaved(s: State) {
    || s.Lookup? || s.InPrefix? || s.Compare?
    || (s.InProtocol? && !s.proto.D? && !s.proto.DelimiterDash?)
    || (s.InHost? && (s.part.Password? || s.part.HostColon?))
  }

  function Trimmed(k: Core): Core {
    var n := TailLength(k.buf);
    k.(buf := k.buf[..|k.buf| - n], tail := k.tail + n)
  }

  /** The kind of the URL held in a trimmed buffer, if it is one. */
  function KindOf(cfg: Config, k: Core): (bool, UrlKind) {
    if k.isEmail && k.protocol.NoProtocol? then (true, Email)
    else if IsImage(k.extension) then (true, Image)
    else if IsVideo(k.extension) then (true, Video)
    else if k.state.FilesharingId? && k.idLength >= MIN_FILESHARING_ID_LENGTH then (true, Filesharing)
    else (!k.needDomain || DomainAccepted(cfg, k), SiteKind(k.protocol))
  }

  function SaveUrl(cfg: Config, k: Core): (bool, Core) {
    if NeverSaved(k.state) then (false, k)
    else if k.state.CompareSafe? then (true, k.(report := Reported(MakeUrl(k, SiteKind(k.protocol)))))
    else if k.state.ProfileId? then (true, k.(report := Reported(MakeUrl(k, Profile))))
    else if k.state.Host? && k.protocol.NoProtocol? then (false, k)
    else if k.segments == 1 && !k.state.FilesharingId? && k.protocol.NoProtocol? then (false, k)
    else
      var t := Trimmed(k);
      var (ok, kind) := KindOf(cfg, t);
      (ok, if ok then t.(report := Reported(MakeUrl(t, kind))) else t)
  }

  // ----- The switch, one family of states at a time -----

  /** A step inside a protocol prefix: go on, give the character to the host
      state with the stated protocol, or start over. */
  datatype ProtocolMove = Advance(to: State, next: Protocol) | AsHost(kept: Protocol) | Drop

  function ProtocolNext(cfg: Config, s: ProtocolState, p: Protocol, c: char): ProtocolMove {
    var other := if IsSpace(c) then Drop else AsHost(NoProtocol);
    var text := if IsAllowable(c) then AsHost(NoProtocol) else Drop;
    var wide := !cfg.biz && !cfg.dit;
    match s
    case T1 =>
      if Is(c, 't') then Advance(InProtocol(if p.Ftp? then P else T2), p)
      else if Is(c, 'c') && p.Icq? && wide then Advance(InProtocol(C), p)
      else if Is(c, 'a') && p.Agent? && wide then Advance(InProtocol(A), p)
      else if Is(c, 'y') && cfg.biz then Advance(InProtocol(Y), Biz)
      else other
    case T2 =>
      if Is(c, 't') then Advance(InProtocol(P), p) else if Is(c, 'd') then Advance(InProtocol(D), p) else other
    case P =>
      if Is(c, 'p') then Advance(InProtocol(S), p) else if Is(c, 'd') then Advance(InProtocol(D), p) else other
    case C => if Is(c, 'q') then Advance(InProtocol(Q), p) else other
    case T =>
      if c == ':' then Advance(InPrefix(DelimiterSlash1), p)
      else if Is(c, 'e') then Advance(InProtocol(E), p)
      else text
    case Q =>
      if c == ':' then Advance(InPrefix(DelimiterSlash1), p)
      else if Is(c, 'e') then Advance(InProtocol(E), p)
      else text
    case S =>
      if Is(c, 's') then Advance(InProtocol(DelimiterColon), if p.Http? then Https else Ftps)
      else if c == '.' then Advance(InHost(HostDot), NoProtocol)
      else if c == ':' then Advance(InPrefix(DelimiterSlash1), p)
      else text
    case A =>
      if Is(c, 'g') then Advance(InProtocol(G), p) else if Is(c, 'm') then Advance(InProtocol(M), p) else other
    case G => if Is(c, 'e') then Advance(InProtocol(E), p) else other
    case E =>
      if Is(c, 'n') then Advance(InProtocol(N), p)
      else if Is(c, 'a') then Advance(InProtocol(A), p)
      else if Is(c, 's') then Advance(InProtocol(S1), p)
      else if Is(c, 'g') then Advance(InProtocol(G), p)
      else if Is(c, 'r') then Advance(InProtocol(R), p)
      else other
    case N =>
      if Is(c, 't') then Advance(InProtocol(T), p) else if Is(c, 'g') then Advance(InProtocol(G), p) else other
    case Y => if Is(c, 't') then Advance(InProtocol(T), p) else other
    case M => if c == '-' then Advance(InProtocol(DelimiterDash), p) else other
    case M1 => if Is(c, 'e') then Advance(InProtocol(E), p) else other
    case S1 =>
      if Is(c, 's') then Advance(InProtocol(S1), p) else if Is(c, 'e') then Advance(InProtocol(E), p) else other
    case R => if c == ':' then Advance(InPrefix(DelimiterSlash1), p) else other
    case D => if c == '-' && cfg.dit then Advance(InProtocol(DelimiterDash), Dit) else other
    case DelimiterDash => if Is(c, 'm') then Advance(InProtocol(M1), p) else other
    case DelimiterColon =>
      if c == ':' then Advance(InPrefix(DelimiterSlash1), p)
      else if c == '.' then Advance(InHost(HostDot), NoProtocol)
      else if IsAllowable(c) then Advance(Host, NoProtocol)
      else AsHost(p)
  }

  function ProtocolStep(cfg: Config, k: Core, c: char): Outcome
    requires k.state.InProtocol?
  {
    match ProtocolNext(cfg, k.state.proto, k.protocol, c)
    case Advance(to, next) => Consume(k.(state := to, protocol := next))
    case AsHost(kept) => HostStep(k.(state := Host, protocol := kept), c)
    case Drop => Restart
  }

  function LookupStep(k: Core, c: char): Outcome {
    if Is(c, 'w') then Consume(k.(state := InPrefix(Www2)))
    else if Is(c, 'h') then Consume(k.(protocol := Http, state := InProtocol(T1)))
    else if Is(c, 'f') then Consume(k.(protocol := Ftp, state := InProtocol(T1)))
    else if Is(c, 'i') then Consume(k.(protocol := Icq, state := InProtocol(T1)))
    else if Is(c, 'm') then Consume(k.(protocol := Agent, state := InProtocol(T1)))
    else if IsLetterOrDigit(c) then Consume(k.(domain := k.domain + [c], state := Host))
    else Ignore(k)
  }

  function PrefixStep(k: Core, c: char): Outcome
    requires k.state.InPrefix?
  {
    var host := if IsAllowable(c) then Consume(k.(state := Host)) else Restart;
    var named := if IsAllowable(c) then Consume(k.(state := Host, domain := k.domain + [c])) else Restart;
    match k.state.prefix
    case CheckWww => if Is(c, 'w') then Consume(k.(state := InPrefix(Www2))) else named
    case Www2 => if Is(c, 'w') then Consume(k.(state := InPrefix(Www3))) else host
    case Www3 => if Is(c, 'w') then Consume(k.(state := InPrefix(Www4))) else host
    case Www4 => if c == '.' then Consume(k.(state := InPrefix(CheckFilesharing))) else host
    case CheckFilesharing => named
    case DelimiterSlash1 => if c == '/' then Consume(k.(state := InPrefix(DelimiterSlash2))) else Restart
    case DelimiterSlash2 => if c == '/' then Consume(k.(state := InPrefix(CheckWww), hasPrefix := true)) else Restart
  }

  function IdStep(k: Core, c: char): Outcome {
    var n := k.(idLength := k.idLength + 1);
    if IsSpace(c) then
      if n.idLength >= MIN_PROFILE_ID_LENGTH then Save(n) else Save(n.(state := Host, needDomain := false))
    else if IsIdChar(c) then Consume(n)
    else Restart
  }

  function HostStep(k: Core, c: char): Outcome {
    if c == '.' then Consume(k.(state := InHost(HostDot)))
    else if c == ':' then Consume(k.(state := InHost(HostColon)))
    else if c == '@' then Consume(k.(state := InHost(HostAt)))
    else if c == '/' then (if k.protocol.NoProtocol? then Restart else Consume(k))
    else if c == '?' then
      (if k.protocol.Icq? || k.protocol.Agent? || k.protocol.Biz? || k.protocol.Dit? then Consume(k) else Restart)
    else if !IsAllowable(c) then (if k.protocol.NoProtocol? then Restart else Save(k))
    else Consume(k.(domain := k.domain + [c]))
  }

  function HostNStep(cfg: Config, k: Core, c: char): Outcome {
    var ok := DomainAccepted(cfg, k);
    if c == '.' then Consume(k.(state := InHost(HostDot)))
    else if c == ':' then (if !k.isEmail && ok then Consume(k.(state := InHost(HostColon))) else Restart)
    else if c == '@' then (if k.isEmail || k.isNotEmail then Restart else Consume(k.(state := Host, isEmail := true)))
    else if c == '/' then (if !k.isEmail && ok then Consume(k.(state := InPath(HostSlash))) else Restart)
    else if c == '?' then (if k.isEmail then Save(k) else if ok then Consume(k.(state := InPath(Query))) else Restart)
    else if c == '#' then (if !k.isEmail && ok then Consume(k.(state := InPath(Query))) else Restart)
    else if IsSpace(c) || IsEnding(c) then (if ok then Save(k) else Restart)
    else if !IsLetterOrDigit(c) && c != '-' then Restart
    else Consume(k.(domain := k.domain + [c]))
  }

  function HostPartStep(cfg: Config, k: Core, c: char): Outcome
    requires k.state.InHost?
  {
    match k.state.part
    case Password =>
      if c == '@' then Consume(k.(state := Host)) else if IsAllowable(c) then Consume(k) else Restart
    case HostAt =>
      if !IsAllowable(c) then Restart
      else if !k.protocol.NoProtocol? then Consume(k.(state := Host))
      else if k.isEmail || k.isNotEmail then Restart
      else Consume(k.(state := Host, isEmail := true))
    case HostDot =>
      var n := k.(segments := k.segments + 1, ipv4 := k.ipv4 + if IsIpv4Segment(k.domain) then 1 else 0);
      if IsLetterOrDigit(c) then Consume(n.(domain := [c], state := HostN))
      else if IsSpace(c) then Save(n.(segments := n.segments - 1))
      else Restart
    case HostColon =>
      if IsDigit(c) then Consume(k.(state := InHost(Port)))
      else if IsAllowable(c) then Consume(k.(state := InHost(Password)))
      else Restart
    case Port =>
      if c == '/' then (if DomainAccepted(cfg, k) then Consume(k.(state := InPath(PortSlash))) else Restart)
      else if IsDigit(c) then Consume(k)
      else if c == '@' then Consume(k.(state := Host))
      else if IsAllowable(c) then Consume(k.(state := InHost(Password)))
      else Restart
    case PortDot => if IsDigit(c) then Consume(k.(state := InHost(Port))) else Restart
  }

  function PathStep(cfg: Config, k: Core, c: char): Outcome
    requires k.state.InPath?
  {
    match k.state.path
    case HostSlash =>
      if c == '/' then Consume(k)
      else if IsAllowable(c) then Consume(k.(state := InPath(Path)))
      else if IsSpace(c) then Save(k)
      else Restart
    case PortSlash =>
      if IsLetterOrDigit(c) then Consume(k.(state := InPath(Path))) else if IsSpace(c) then Save(k) else Restart
    case Path =>
      if c == '.' then Consume(k.(state := InPath(PathDot)))
      else if c == '/' then Consume(k.(state := InPath(PathSlash)))
      else if c == '?' then Consume(k.(state := InPath(Query)))
      else if IsSpace(c) then Save(k)
      else if IsAllowable(c) then Consume(k)
      else if IsEnding(c) then (if DomainAccepted(cfg, k) then Save(k) else Restart)
      else Consume(k)
    case PathDot => PathDotStep(k, c)
    case PathSlash =>
      if IsSpace(c) then Save(k)
      else if c == '?' then Consume(k.(state := InPath(Query)))
      else if IsAllowable(c) then Consume(k.(state := InPath(Path)))
      else Restart
    case QueryOrEnd =>
      if IsSpace(c) || c == '>' then Save(k)
      else if c == '?' || c == '!' || c == ',' || c == '#' || c == '/' || c == ':' || c == '.' then
        Consume(k.(state := InPath(Query)))
      else if c == '_' then Consume(k.(state := InPath(Path)))
      else if IsLetterOrDigit(c) then Consume(k.(extension := NoExtension, state := InPath(Query)))
      else Restart
    case Query =>
      if IsSpace(c) then Save(k) else if IsAllowable(c) then Consume(k) else Restart
  }

  function PathDotStep(k: Core, c: char): Outcome {
    var first := ExtensionStart(c);
    if first != InPath(PathDot) then Consume(k.(state := first))
    else if IsAllowable(c) then Consume(k.(state := InPath(Path)))
    else if IsSpace(c) then Save(k)
    else Restart
  }

  /** The state for the first letter of a known extension, or `PathDot` if there is none. */
  function ExtensionStart(c: char): State {
    if Is(c, 'j') then InExtension(JpgP)
    else if Is(c, 'p') then InExtension(PngN)
    else if Is(c, 'g') then InExtension(GifI)
    else if Is(c, 'b') then InExtension(BmpM)
    else if Is(c, 't') then InExtension(TiffI)
    else if Is(c, 'a') then InExtension(AviV)
    else if Is(c, 'm') then InExtension(MkvK)
    else if Is(c, 'f') then InExtension(FlvL)
    else if Is(c, 's') then InExtension(SvgV)
    else if c == '3' then InExtension(Gp3G)
    else if Is(c, 'w') then InExtension(WebmE)
    else InPath(PathDot)
  }

  /** A letter inside a file extension: one more letter, the whole extension, or neither. */
  datatype ExtensionMove = More(to: ExtensionState) | Whole(extension: Extension) | Other

  function ExtensionNext(s: ExtensionState, c: char): ExtensionMove {
    match s
    case JpgP => if Is(c, 'p') then More(JpgG) else Other
    case JpgG => if Is(c, 'g') then Whole(Jpg) else if Is(c, 'e') then More(JpgE) else Other
    case JpgE => if Is(c, 'g') then Whole(Jpeg) else Other
    case PngN => if Is(c, 'n') then More(PngG) else Other
    case PngG => if Is(c, 'g') then Whole(Png) else Other
    case GifI => if Is(c, 'i') then More(GifF) else Other
    case GifF => if Is(c, 'f') then Whole(Gif) else Other
    case BmpM => if Is(c, 'm') then More(BmpP) else Other
    case BmpP => if Is(c, 'p') then Whole(Bmp) else Other
    case TiffI => if Is(c, 'i') then More(TiffF1) else Other
    case TiffF1 => if Is(c, 'f') then More(TiffF2) else Other
    case TiffF2 => if Is(c, 'f') then Whole(Tiff) else Other
    case AviV => if Is(c, 'v') then More(AviI) else Other
    case AviI => if Is(c, 'i') then Whole(Avi) else Other
    case MkvK =>
      if Is(c, 'k') then More(MkvV)
      else if Is(c, 'o') then More(MovV)
      else if Is(c, 'p') then More(Mpeg4E)
      else Other
    case MkvV => if Is(c, 'v') then Whole(Mkv) else Other
    case MovV => if Is(c, 'v') then Whole(Mov) else Other
    case Mpeg4E => if Is(c, 'e') then More(Mpeg4G) else if c == '4' then Whole(Mpeg4) else Other
    case Mpeg4G => if Is(c, 'g') then More(Mpeg4Digit) else Other
    case Mpeg4Digit => if c == '4' then Whole(Mpeg4) else Other
    case SvgV => if Is(c, 'v') then More(SvgG) else Other
    case SvgG => if Is(c, 'g') then Whole(Svg) else Other
    case FlvL => if Is(c, 'l') then More(FlvV) else Other
    case FlvV => if Is(c, 'v') then Whole(Flv) else Other
    case Gp3G => if Is(c, 'g') then More(Gp3P) else Other
    case Gp3P => if Is(c, 'p') then Whole(Gp3) else Other
    case WebmE => if Is(c, 'e') then More(WebmB) else if Is(c, 'm') then More(WmvV) else Other
    case WebmB => if Is(c, 'b') then More(WebmM) else Other
    case WebmM => if Is(c, 'm') then Whole(Webm) else Other
    case WmvV => if Is(c, 'v') then Whole(Wmv) else Other
  }

  function ExtensionStep(k: Core, c: char): Outcome
    requires k.state.InExtension?
  {
    match ExtensionNext(k.state.letter, c)
    case More(to) => Consume(k.(state := InExtension(to)))
    case Whole(e) => Consume(k.(extension := e, state := InPath(QueryOrEnd)))
    case Other => if IsAllowable(c) then Consume(k.(state := InPath(Path))) else Restart
  }

  predicate Comparing(s: State) { s.Compare? || s.CompareSafe? }

  /** One character when no fixed URL is being compared and none is started:
      the whole machine of a parser without fixed URLs. */
  function PlainOutcome(cfg: Config, k: Core, c: char): Outcome
    requires !Comparing(k.state)
  {
    if k.state.Lookup? || k.state.LookupWithoutFixed? then LookupStep(k, c)
    else if k.state.InProtocol? then ProtocolStep(cfg, k, c)
    else if k.state.InPrefix? then PrefixStep(k, c)
    else if k.state.FilesharingId? || k.state.ProfileId? then IdStep(k, c)
    else if k.state.Host? then HostStep(k, c)
    else if k.state.HostN? then HostNStep(cfg, k, c)
    else if k.state.InHost? then HostPartStep(cfg, k, c)
    else if k.state.InPath? then PathStep(cfg, k, c)
    else ExtensionStep(k, c)
  }

  /** A plain parser never enters the comparing states; the guard only makes the function total. */
  function PlainStep(cfg: Config, k: Core, c: char): Core {
    if Comparing(k.state) then k else Resolve(cfg, PlainOutcome(cfg, k, c), c)
  }

  /** Does a plain step end in `reset()`? */
  predicate Restarts(cfg: Config, k: Core, c: char) {
    !Comparing(k.state) && RestartsAfter(cfg, PlainOutcome(cfg, k, c))
  }

  predicate RestartsAfter(cfg: Config, o: Outcome) {
    o.Restart? || (o.Save? && !SaveUrl(cfg, o.done).0)
  }

  function PlainFeed(cfg: Config, k: Core, s: string): Core {
    if s == "" then k else PlainStep(cfg, PlainFeed(cfg, k, s[..|s| - 1]), s[|s| - 1])
  }

  // ----- Comparing with the fixed URLs -----

  predicate InCompareSet(items: seq<Item>, c: char) {
    exists i :: 0 <= i < |items| && items[i].str != "" && items[i].str[0] == c
  }

  predicate StartsComparison(cfg: Config, s: State, c: char) {
    && (s.Lookup? || (s == InPrefix(CheckWww) && !Is(c, 'w')) || s == InPrefix(CheckFilesharing))
    && InCompareSet(cfg.items, c)
  }

  /** The loop variables of `compare_fixed_urls` after its first `n` items. */
  datatype Scan = Scan(matched: seq<bool>, partial: bool, ended: bool, safe: int, ok: State)

  predicate Considered(items: seq<Item>, matched: seq<bool>, pos: nat, i: nat)
    requires i < |items| == |matched|
  {
    (pos == 0 || matched[i]) && pos < |items[i].str|
  }

  function ScanItems(items: seq<Item>, cmp: Comparison, c: char, n: nat): (r: Scan)
    requires |cmp.matched| == |items| && n <= |items|
    ensures |r.matched| == |items|
  {
    if n == 0 then Scan(cmp.matched, false, true, -1, cmp.ok)
    else
      var s := ScanItems(items, cmp, c, n - 1);
      var item := items[n - 1];
      if !Considered(items, cmp.matched, cmp.pos, n - 1) then s
      else
        var m := IsEqual(c, item.str[cmp.pos]);
        var ended := s.ended && |item.str| - 1 == cmp.pos;
        Scan(s.matched[n - 1 := m],
             s.partial || m,
             ended,
             if (m && s.safe > item.safe) || s.safe == -1 then item.safe else s.safe,
             if ended && m then item.ok else s.ok)
  }

  function ResultOf(s: Scan): CompareResult {
    if s.partial && !s.ended then InProgress else if s.partial then Match else NoMatch
  }

  /** `compare_fixed_urls`: the verdict and the parser with the character kept if something matched. */
  function CompareFixed(cfg: Config, p: Parser, c: char): (CompareResult, Parser)
    requires |p.cmp.matched| == |cfg.items|
  {
    var s := ScanItems(cfg.items, p.cmp, c, |cfg.items|);
    var cmp := p.cmp.(matched := s.matched, ok := s.ok);
    if s.partial then
      var kept := cmp.(buf := cmp.buf + [c], pos := cmp.pos + 1, safe := s.safe);
      (ResultOf(s), Parser(p.core.(buf := p.core.buf + [c]), kept))
    else
      (ResultOf(s), p.(cmp := cmp))
  }

  /** `start_fixed_urls_compare`. */
  function StartComparison(cfg: Config, p: Parser, c: char): Parser {
    var fallback := if p.core.state.Lookup? then LookupWithoutFixed else Host;
    var cmp := Comparison("", 0, seq(|cfg.items|, _ => false), p.cmp.ok, fallback, 0);
    var (r, q) := CompareFixed(cfg, p.(cmp := cmp), c);
    q.(core := q.core.(state := match r case Match => q.cmp.ok case NoMatch => fallback case InProgress => Compare))
  }

  /** The parser as it was when the comparison began, in the fallback state. */
  function Base(p: Parser): Core
    requires p.cmp.pos <= |p.core.buf|
  {
    p.core.(state := p.cmp.fallback, buf := p.core.buf[..|p.core.buf| - p.cmp.pos])
  }

  function PlainParserStep(cfg: Config, p: Parser, c: char): Parser {
    Parser(PlainStep(cfg, p.core, c), if Restarts(cfg, p.core, c) then p.cmp.(pos := 0) else p.cmp)
  }

  /** One character while comparing. A failed comparison gives back the
      characters compared so far and reads them again without fixed URLs. */
  function CompareStep(cfg: Config, p: Parser, c: char): Parser
    requires |p.cmp.matched| == |cfg.items| && p.cmp.pos <= |p.core.buf|
  {
    var safe := p.core.state.Compare? && p.cmp.safe != 0 && p.cmp.pos >= p.cmp.safe;
    var state := if safe then CompareSafe else p.core.state;
    var (r, q) := CompareFixed(cfg, p.(core := p.core.(state := state)), c);
    match r
    case Match => q.(core := q.core.(state := q.cmp.ok))
    case InProgress => q
    case NoMatch => PlainParserStep(cfg, q.(core := PlainFeed(cfg, Base(q), p.cmp.buf)), c)
  }

  predicate ComparisonShape(cfg: Config, p: Parser) {
    Comparing(p.core.state) ==> |p.cmp.matched| == |cfg.items| && p.cmp.pos <= |p.core.buf|
  }

  /** The whole of `process(char)`. */
  function Step(cfg: Config, p: Parser, c: char): Parser
    requires ComparisonShape(cfg, p)
  {
    if Comparing(p.core.state) then CompareStep(cfg, p, c)
    else if StartsComparison(cfg, p.core.state, c) then StartComparison(cfg, p, c)
    else PlainParserStep(cfg, p, c)
  }

  /** `finish()`. */
  function Finish(cfg: Config, p: Parser): Parser { p.(core := SaveUrl(cfg, p.core).1) }
}
