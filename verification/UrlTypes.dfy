/** The value types of the URL parser (common.shared/url_parser/url_parser.h). */
module UrlTypes {

  datatype UrlKind = Image | Video | Filesharing | Site | Email | FtpSite | Profile

  datatype Protocol = NoProtocol | Http | Ftp | Https | Ftps | Icq | Agent | Biz | Dit

  datatype Extension =
    | NoExtension
    | Gp3 | Avi | Bmp | Flv | Gif | Jpeg | Jpg | Mkv | Mov | Mpeg4 | Svg | Png | Tiff | Webm | Wmv

  datatype Url = Url(original: string, url: string, kind: UrlKind, protocol: Protocol, extension: Extension)

  /** `url_` with an undefined type is `NoUrl`: its other fields are never read. */
  datatype Report = NoUrl | Reported(found: Url)

  // The states of the parser, grouped by the part of a URL they read.

  datatype ProtocolState =
    | T1 | T2 | P | S | C | Q | A | G | E | N | T | Y | R | S1 | M | M1 | D
    | DelimiterColon | DelimiterDash

  datatype PrefixState = DelimiterSlash1 | DelimiterSlash2 | CheckWww | Www2 | Www3 | Www4 | CheckFilesharing

  datatype HostState = Password | HostAt | HostDot | HostColon | Port | PortDot

  datatype PathState = HostSlash | PortSlash | Path | PathDot | PathSlash | QueryOrEnd | Query

  datatype ExtensionState =
    | JpgP | JpgG | JpgE | PngN | PngG | GifI | GifF | BmpM | BmpP | TiffI | TiffF1 | TiffF2
    | AviV | AviI | MkvK | MkvV | MovV | Mpeg4E | Mpeg4G | Mpeg4Digit | FlvL | FlvV | Gp3G | Gp3P
    | SvgV | SvgG | WebmE | WebmB | WebmM | WmvV

  datatype State =
    | Lookup | LookupWithoutFixed
    | InProtocol(proto: ProtocolState)
    | InPrefix(prefix: PrefixState)
    | Compare | CompareSafe
    | FilesharingId | ProfileId
    | Host | HostN
    | InHost(part: HostState)
    | InPath(path: PathState)
    | InExtension(letter: ExtensionState)

  /** One fixed URL to compare with; `match` flags live with the running comparison. */
  datatype Item = Item(str: string, ok: State, safe: int)

  /** Everything fixed for one parser: the fixed URLs, the build flavour and the
      list of accepted top-level domains (kept lower case). */
  datatype Config = Config(items: seq<Item>, biz: bool, dit: bool, tld: string -> bool)

  /** The fields of the parser that a reader of the URL can see. */
  datatype Core = Core(
    state: State,
    protocol: Protocol,
    buf: string,
    domain: string,
    extension: Extension,
    isNotEmail: bool,
    isEmail: bool,
    hasPrefix: bool,
    segments: int,
    ipv4: int,
    idLength: nat,
    report: Report,
    needDomain: bool,
    tail: nat)

  /** The fields used only while comparing with the fixed URLs. */
  datatype Comparison = Comparison(
    buf: string,
    pos: nat,
    matched: seq<bool>,
    ok: State,
    fallback: State,
    safe: int)

  datatype Parser = Parser(core: Core, cmp: Comparison)

  /** How one character ends: `break`, the reset macro, the URL-found macro,
      a plain `return`, or a second look at the character in the host state. */
  datatype Action = Break | ResetParser | UriFound | Return | Reprocess

  datatype CompareResult = Match | NoMatch | InProgress
}
