/** URLs as people write them: what is allowed in one, and what should be reported of it.
    Nothing here knows how a parser works. */
module UrlTexts {
  import opened UrlTypes

  // ----- Characters -----

  predicate Letter(c: char) { 'a' <= c <= 'z' || 'A' <= c <= 'Z' }

  predicate Digit(c: char) { '0' <= c <= '9' }

  predicate UrlChar(c: char) { Letter(c) || Digit(c) || c in "-._~!$&'()*+,;=:%?#@{}/[]\"" }

  predicate Punctuation(c: char) { c in ".,!?\"'`>]);" }

  /** A blank, a tab or a line break. */
  predicate Blank(c: char) { c == ' ' || 9 <= c as int <= 13 }

  function LowerCase(c: char): char { if 'A' <= c <= 'Z' then (c as int - 'A' as int + 'a' as int) as char else c }

  function InLowerCase(s: string): string { seq(|s|, i requires 0 <= i < |s| => LowerCase(s[i])) }

  /** The word in any case of letters. */
  predicate Spells(s: string, word: string) {
    |s| == |word| && forall i :: 0 <= i < |s| ==> LowerCase(s[i]) == word[i]
  }

  predicate AllUrlChars(s: string) { forall i :: 0 <= i < |s| ==> UrlChar(s[i]) }

  predicate AllDigits(s: string) { forall i :: 0 <= i < |s| ==> Digit(s[i]) }

  /** A label of a host: letters, digits and hyphens, with no hyphen in front. */
  predicate LabelText(s: string) {
    && s != "" && (Letter(s[0]) || Digit(s[0]))
    && forall i :: 0 <= i < |s| ==> Letter(s[i]) || Digit(s[i]) || s[i] == '-'
  }

  /** `o` is the text without its trailing punctuation. */
  predicate WithoutTrailing(text: string, o: string) {
    && o <= text && (forall i :: |o| <= i < |text| ==> Punctuation(text[i]))
    && (o != "" ==> !Punctuation(o[|o| - 1]))
  }

  // ----- Schemes -----

  function SchemeName(p: Protocol): string {
    match p
    case NoProtocol => ""
    case Http => "http"
    case Ftp => "ftp"
    case Https => "https"
    case Ftps => "ftps"
    case Icq => "icq"
    case Agent => "magent"
    case Biz => "myteam-messenger"
    case Dit => "itd-messenger"
  }

  /** The schemes that a build knows. */
  predicate Spoken(cfg: Config, p: Protocol) {
    match p
    case Icq => !cfg.biz && !cfg.dit
    case Agent => !cfg.biz && !cfg.dit
    case Biz => cfg.biz
    case Dit => cfg.dit
    case _ => true
  }

  // ----- Paths -----

  /** The file extensions that tell images and videos. */
  function ExtensionNamed(s: string): Extension {
    if s == "jpg" then Jpg else if s == "jpeg" then Jpeg else if s == "png" then Png else if s == "gif" then Gif
    else if s == "bmp" then Bmp else if s == "tiff" then Tiff else if s == "svg" then Svg
    else if s == "avi" then Avi else if s == "mkv" then Mkv else if s == "mov" then Mov else if s == "flv" then Flv
    else if s == "mp4" || s == "mpeg4" then Mpeg4 else if s == "3gp" then Gp3
    else if s == "webm" then Webm else if s == "wmv" then Wmv
    else NoExtension
  }

  /** Does some extension begin so? */
  predicate BeginsExtension(s: string) {
    || s <= "jpg" || s <= "jpeg" || s <= "png" || s <= "gif" || s <= "bmp" || s <= "tiff" || s <= "svg"
    || s <= "avi" || s <= "mkv" || s <= "mov" || s <= "flv" || s <= "mp4" || s <= "mpeg4" || s <= "3gp"
    || s <= "webm" || s <= "wmv"
  }

  /** How a path has ended so far: with the slashes behind the host, in plain text, with a dot, with a
      slash, inside or behind an extension, in a query, or broken off. */
  datatype Ending = Slashes | Plain | AfterDot | AfterSlash | Inside(part: string) | Behind | Asked | Broken

  /** The ending, and the last extension that counts. */
  datatype Shape = Shape(ending: Ending, extension: Extension)

  /** In plain text a path may hold any character but a blank and two signs; elsewhere only those of a URL. */
  predicate PathSign(e: Ending, c: char) { UrlChar(c) || (e.Plain? && !Blank(c) && c != '`' && c != '>') }

  function NextShape(s: Shape, c: char): Shape {
    if !PathSign(s.ending, c) then s.(ending := Broken) else
    match s.ending
    case Slashes => s.(ending := if c == '/' then Slashes else Plain)
    case Plain =>
      s.(ending := if c == '.' then AfterDot else if c == '/' then AfterSlash else if c == '?' then Asked else Plain)
    case AfterDot => s.(ending := if BeginsExtension([LowerCase(c)]) then Inside([LowerCase(c)]) else Plain)
    case AfterSlash => s.(ending := if c == '?' then Asked else Plain)
    case Inside(part) =>
      var t := part + [LowerCase(c)];
      if ExtensionNamed(t) != NoExtension then Shape(Behind, ExtensionNamed(t))
      else s.(ending := if BeginsExtension(t) then Inside(t) else Plain)
    case Behind =>
      if c in "?!,#/:." then s.(ending := Asked)
      else if c == '_' then s.(ending := Plain)
      else if Letter(c) || Digit(c) then Shape(Asked, NoExtension)
      else s.(ending := Broken)
    case Asked => s
    case Broken => s
  }

  function ShapeAfter(s: Shape, path: string): Shape {
    if path == "" then s else NextShape(ShapeAfter(s, path[..|path| - 1]), path[|path| - 1])
  }

  // ----- Whole URLs -----

  /** A user name in front of a host, perhaps with a password. */
  datatype Login = NoLogin | Login(user: string, password: string)

  /** `[scheme://][user:password@][www.]first.label…[:port][rest]`, where the rest is a path or begins
      with a question mark or a number sign. */
  datatype Written = Written(
    scheme: string,
    protocol: Protocol,
    login: Login,
    www: string,
    first: string,
    labels: seq<string>,
    port: string,
    rest: string)

  function LabelsText(labels: seq<string>): string {
    if labels == [] then "" else LabelsText(labels[..|labels| - 1]) + "." + labels[|labels| - 1]
  }

  function SchemeText(w: Written): string { if w.protocol.NoProtocol? then "" else w.scheme + "://" }

  function LoginText(l: Login): string {
    if l.NoLogin? then "" else l.user + (if l.password == "" then "" else ":" + l.password) + "@"
  }

  function HostPart(w: Written): string {
    SchemeText(w) + LoginText(w.login) + w.www + w.first + LabelsText(w.labels)
  }

  function PortPart(w: Written): string { if w.port == "" then "" else ":" + w.port }

  function Text(w: Written): string { HostPart(w) + PortPart(w) + w.rest }

  predicate SmallNumber(s: string) { 1 <= |s| <= 3 && AllDigits(s) }

  predicate Www(s: string) { 1 <= |s| <= 3 && forall i :: 0 <= i < |s| ==> LowerCase(s[i]) == 'w' }

  /** A host of four labels of which the first three are numbers. */
  predicate ThreeNumbers(w: Written) {
    |w.labels| == 3 && SmallNumber(w.first) && SmallNumber(w.labels[0]) && SmallNumber(w.labels[1])
  }

  /** A scheme vouches for any host; otherwise the last label must be a known domain, or the host be
      four numbers (of which nobody looks at the last). */
  predicate HostVouched(cfg: Config, w: Written) {
    || !w.protocol.NoProtocol?
    || (w.labels != [] && cfg.tld(InLowerCase(w.labels[|w.labels| - 1])))
    || ThreeNumbers(w)
  }

  /** Digits at the beginning of a password are not followed by a slash, which would make them a port. */
  predicate PasswordText(s: string) {
    && AllUrlChars(s) && (forall i :: 0 <= i < |s| ==> s[i] != '@')
    && forall i :: 0 < i < |s| && AllDigits(s[..i]) ==> s[i] != '/'
  }

  function StartShape(c: char): Shape { Shape(if c == '/' then Slashes else Asked, NoExtension) }

  /** Where the rest of a URL ends. */
  function RestShape(w: Written): Shape {
    if w.rest == "" || w.rest == "/" then Shape(Slashes, NoExtension)
    else if w.port == "" then ShapeAfter(StartShape(w.rest[0]), w.rest[1..])
    else if |w.rest| == 1 then Shape(Plain, NoExtension)
    else ShapeAfter(Shape(Plain, NoExtension), w.rest[2..])
  }

  predicate WrittenOk(cfg: Config, w: Written) {
    && (if w.protocol.NoProtocol? then w.scheme == ""
        else Spells(w.scheme, SchemeName(w.protocol)) && Spoken(cfg, w.protocol))
    && (w.login.Login? ==>
          && !w.protocol.NoProtocol? && w.www == ""
          && LabelText(w.login.user) && !Www(w.login.user) && PasswordText(w.login.password))
    && (w.www == "" || Spells(w.www, "www."))
    && LabelText(w.first) && (w.login.NoLogin? && w.www == "" ==> !Www(w.first))
    && w.labels != [] && (forall i :: 0 <= i < |w.labels| ==> LabelText(w.labels[i]))
    && HostVouched(cfg, w)
    && AllDigits(w.port)
    && (w.rest != "" ==> w.rest[0] == '/' || (w.port == "" && (w.rest[0] == '?' || w.rest[0] == '#')))
    && (w.port != "" && |w.rest| > 1 ==> Letter(w.rest[1]) || Digit(w.rest[1]))
    && !RestShape(w).ending.Broken?
  }

  /** The characters behind a URL at which it properly ends. A blank does, unless it stands behind a
      port or inside an extension. */
  predicate EndsAt(w: Written, c: char) {
    if w.rest == "" then w.port == "" && (Blank(c) || c in ",!\"'`>]);")
    else if w.rest == "/" then Blank(c)
    else
      match RestShape(w).ending
      case Plain => Blank(c) || c in "`>"
      case Behind => Blank(c) || c == '>'
      case Inside(_) => false
      case _ => Blank(c)
  }

  /** The characters with which a URL may go on: those of a label, or a sign that begins its next part. */
  predicate GoesOn(w: Written, c: char) {
    if w.rest == "" then
      if w.port == "" then Letter(c) || Digit(c) || c in "-.:@/?#" else UrlChar(c)
    else if w.rest == "/" && w.port != "" then Letter(c) || Digit(c)
    else !NextShape(RestShape(w), c).ending.Broken?
  }

  function KindOfExtension(e: Extension, p: Protocol): UrlKind {
    match e
    case NoExtension => if p.Ftp? || p.Ftps? then FtpSite else Site
    case Gif => Image
    case Bmp => Image
    case Jpeg => Image
    case Jpg => Image
    case Svg => Image
    case Png => Image
    case Tiff => Image
    case _ => Video
  }

  /** What should be reported of a URL: the text without trailing punctuation, with the scheme that was
      written or a web scheme put in front. */
  predicate Expected(w: Written, u: Url) {
    && WithoutTrailing(Text(w), u.original)
    && (if w.protocol.NoProtocol? then u.protocol == Http && u.url == "http://" + u.original
        else u.protocol == w.protocol && u.url == u.original)
    && u.kind == KindOfExtension(RestShape(w).extension, w.protocol) && u.extension == RestShape(w).extension
  }
}
