/** Reading the path of a URL: the states of the parser are those of the text. */
module UrlPaths {
  import opened UrlTypes
  import opened UrlMachine
  import opened UrlInvariant
  import opened UrlReplay
  import opened UrlTexts

  // ----- Characters -----

  lemma CharactersAgree(c: char)
    ensures IsAllowable(c) <==> UrlChar(c)
    ensures IsEnding(c) <==> Punctuation(c)
    ensures IsSpace(c) <==> Blank(c)
    ensures IsLetterOrDigit(c) <==> Letter(c) || Digit(c)
    ensures IsDigit(c) <==> Digit(c)
    ensures ToLower(c) == LowerCase(c)
  {
  }

  // ----- Extensions -----

  /** The beginning of an extension that a state stands for. */
  function PartOf(e: ExtensionState): string {
    match e
    case JpgP => "j"
    case JpgG => "jp"
    case JpgE => "jpe"
    case PngN => "p"
    case PngG => "pn"
    case GifI => "g"
    case GifF => "gi"
    case BmpM => "b"
    case BmpP => "bm"
    case TiffI => "t"
    case TiffF1 => "ti"
    case TiffF2 => "tif"
    case AviV => "a"
    case AviI => "av"
    case MkvK => "m"
    case MkvV => "mk"
    case MovV => "mo"
    case Mpeg4E => "mp"
    case Mpeg4G => "mpe"
    case Mpeg4Digit => "mpeg"
    case FlvL => "f"
    case FlvV => "fl"
    case Gp3G => "3"
    case Gp3P => "3g"
    case SvgV => "s"
    case SvgG => "sv"
    case WebmE => "w"
    case WebmB => "we"
    case WebmM => "web"
    case WmvV => "wm"
  }

  /** One more letter: the state goes on exactly as the names of the extensions do. */
  predicate TrieAgrees(e: ExtensionState, c: char) {
    var t, m := PartOf(e) + [LowerCase(c)], ExtensionNext(e, c);
    && (m.Whole? <==> ExtensionNamed(t) != NoExtension) && (m.Whole? ==> m.extension == ExtensionNamed(t))
    && (m.More? <==> BeginsExtension(t) && ExtensionNamed(t) == NoExtension) && (m.More? ==> PartOf(m.to) == t)
  }

  /** Equality with the names of extensions, letter by letter. */
  lemma ByLetters(t: string, name: string)
    requires |name| <= 5
    ensures t == name <==> |t| == |name| && SameLetters(t, name, |name|)
    ensures t <= name <==> |t| <= |name| && SameLetters(t, name, |t|)
  {
  }

  predicate SameLetters(t: string, name: string, n: nat)
    requires n <= |t| && n <= |name|
  {
    && (n > 0 ==> t[0] == name[0]) && (n > 1 ==> t[1] == name[1]) && (n > 2 ==> t[2] == name[2])
    && (n > 3 ==> t[3] == name[3]) && (n > 4 ==> t[4] == name[4])
  }

  /** What the names of extensions with a given first letter are. */
  lemma ByFirstLetter(t: string)
    requires t != ""
    ensures BeginsExtension(t) <==>
      || (t[0] == 'j' && (t <= "jpg" || t <= "jpeg"))
      || (t[0] == 'p' && (t <= "png"))
      || (t[0] == 'g' && (t <= "gif"))
      || (t[0] == 'b' && (t <= "bmp"))
      || (t[0] == 't' && (t <= "tiff"))
      || (t[0] == 's' && (t <= "svg"))
      || (t[0] == 'a' && (t <= "avi"))
      || (t[0] == 'm' && (t <= "mkv" || t <= "mov" || t <= "mp4" || t <= "mpeg4"))
      || (t[0] == 'f' && (t <= "flv"))
      || (t[0] == '3' && (t <= "3gp"))
      || (t[0] == 'w' && (t <= "webm" || t <= "wmv"))
    ensures ExtensionNamed(t) ==
      if t[0] == 'j' then (if t == "jpg" then Jpg else if t == "jpeg" then Jpeg else NoExtension)
      else if t[0] == 'p' then (if t == "png" then Png else NoExtension)
      else if t[0] == 'g' then (if t == "gif" then Gif else NoExtension)
      else if t[0] == 'b' then (if t == "bmp" then Bmp else NoExtension)
      else if t[0] == 't' then (if t == "tiff" then Tiff else NoExtension)
      else if t[0] == 's' then (if t == "svg" then Svg else NoExtension)
      else if t[0] == 'a' then (if t == "avi" then Avi else NoExtension)
      else if t[0] == 'm' then
        (if t == "mkv" then Mkv else if t == "mov" then Mov
         else if t == "mp4" then Mpeg4 else if t == "mpeg4" then Mpeg4 else NoExtension)
      else if t[0] == 'f' then (if t == "flv" then Flv else NoExtension)
      else if t[0] == '3' then (if t == "3gp" then Gp3 else NoExtension)
      else if t[0] == 'w' then (if t == "webm" then Webm else if t == "wmv" then Wmv else NoExtension)
      else NoExtension
  {
  }

  lemma LowerAgrees(c: char)
    ensures LowerCase(c) == ToLower(c)
    ensures forall x: char :: ('a' <= x <= 'z' || '0' <= x <= '9') ==> (Is(c, x) <==> LowerCase(c) == x)
    ensures c == '4' <==> LowerCase(c) == '4'
  {
  }

  lemma TrieJpg(e: ExtensionState, c: char)
    requires e.JpgP? || e.JpgG? || e.JpgE?
    ensures TrieAgrees(e, c)
  {
    hide BeginsExtension, ExtensionNamed, LowerCase;
    LowerAgrees(c);
    var t := PartOf(e) + [LowerCase(c)];
    assert t[|t| - 1] == LowerCase(c) && t[0] == PartOf(e)[0];
    ByFirstLetter(t);
    ByLetters(t, "jpg");
    ByLetters(t, "jpeg");
    ByLetters(t, "jp");
    ByLetters(t, "jpe");
  }

  lemma TriePng(e: ExtensionState, c: char)
    requires e.PngN? || e.PngG? || e.GifI? || e.GifF?
    ensures TrieAgrees(e, c)
  {
    hide BeginsExtension, ExtensionNamed, LowerCase;
    LowerAgrees(c);
    var t := PartOf(e) + [LowerCase(c)];
    assert t[|t| - 1] == LowerCase(c) && t[0] == PartOf(e)[0];
    ByFirstLetter(t);
    ByLetters(t, "png");
    ByLetters(t, "gif");
    ByLetters(t, "pn");
    ByLetters(t, "gi");
  }

  lemma TrieBmp(e: ExtensionState, c: char)
    requires e.BmpM? || e.BmpP? || e.TiffI? || e.TiffF1? || e.TiffF2?
    ensures TrieAgrees(e, c)
  {
    hide BeginsExtension, ExtensionNamed, LowerCase;
    LowerAgrees(c);
    var t := PartOf(e) + [LowerCase(c)];
    assert t[|t| - 1] == LowerCase(c) && t[0] == PartOf(e)[0];
    ByFirstLetter(t);
    ByLetters(t, "bmp");
    ByLetters(t, "tiff");
    ByLetters(t, "bm");
    ByLetters(t, "ti");
    ByLetters(t, "tif");
  }

  lemma TrieSvg(e: ExtensionState, c: char)
    requires e.AviV? || e.AviI? || e.SvgV? || e.SvgG?
    ensures TrieAgrees(e, c)
  {
    hide BeginsExtension, ExtensionNamed, LowerCase;
    LowerAgrees(c);
    var t := PartOf(e) + [LowerCase(c)];
    assert t[|t| - 1] == LowerCase(c) && t[0] == PartOf(e)[0];
    ByFirstLetter(t);
    ByLetters(t, "svg");
    ByLetters(t, "avi");
    ByLetters(t, "av");
    ByLetters(t, "sv");
  }

  lemma TrieFlv(e: ExtensionState, c: char)
    requires e.FlvL? || e.FlvV? || e.Gp3G? || e.Gp3P?
    ensures TrieAgrees(e, c)
  {
    hide BeginsExtension, ExtensionNamed, LowerCase;
    LowerAgrees(c);
    var t := PartOf(e) + [LowerCase(c)];
    assert t[|t| - 1] == LowerCase(c) && t[0] == PartOf(e)[0];
    ByFirstLetter(t);
    ByLetters(t, "flv");
    ByLetters(t, "3gp");
    ByLetters(t, "fl");
    ByLetters(t, "3g");
  }

  lemma TrieWebm(e: ExtensionState, c: char)
    requires e.WebmE? || e.WebmB? || e.WebmM? || e.WmvV?
    ensures TrieAgrees(e, c)
  {
    hide BeginsExtension, ExtensionNamed, LowerCase;
    LowerAgrees(c);
    var t := PartOf(e) + [LowerCase(c)];
    assert t[|t| - 1] == LowerCase(c) && t[0] == PartOf(e)[0];
    ByFirstLetter(t);
    ByLetters(t, "webm");
    ByLetters(t, "wmv");
    ByLetters(t, "we");
    ByLetters(t, "web");
    ByLetters(t, "wm");
  }

  lemma TrieMkv(e: ExtensionState, c: char)
    requires e.MkvK? || e.MkvV? || e.MovV?
    ensures TrieAgrees(e, c)
  {
    hide BeginsExtension, ExtensionNamed, LowerCase;
    LowerAgrees(c);
    var t := PartOf(e) + [LowerCase(c)];
    assert t[|t| - 1] == LowerCase(c) && t[0] == PartOf(e)[0];
    ByFirstLetter(t);
    ByLetters(t, "mkv");
    ByLetters(t, "mov");
    ByLetters(t, "mp4");
    ByLetters(t, "mpeg4");
    ByLetters(t, "mk");
    ByLetters(t, "mo");
    ByLetters(t, "mp");
    ByLetters(t, "mpe");
    ByLetters(t, "mpeg");
  }

  lemma TrieMpeg(e: ExtensionState, c: char)
    requires e.Mpeg4E? || e.Mpeg4G? || e.Mpeg4Digit?
    ensures TrieAgrees(e, c)
  {
    hide BeginsExtension, ExtensionNamed, LowerCase;
    LowerAgrees(c);
    var t := PartOf(e) + [LowerCase(c)];
    assert t[|t| - 1] == LowerCase(c) && t[0] == PartOf(e)[0];
    ByFirstLetter(t);
    ByLetters(t, "mkv");
    ByLetters(t, "mov");
    ByLetters(t, "mp4");
    ByLetters(t, "mpeg4");
    ByLetters(t, "mk");
    ByLetters(t, "mo");
    ByLetters(t, "mp");
    ByLetters(t, "mpe");
    ByLetters(t, "mpeg");
  }

  lemma Trie(e: ExtensionState, c: char)
    ensures TrieAgrees(e, c)
  {
    hide TrieAgrees;
    match PartOf(e)[0]
    case 'j' => TrieJpg(e, c);
    case 'p' => TriePng(e, c);
    case 'g' => TriePng(e, c);
    case 'b' => TrieBmp(e, c);
    case 't' => TrieBmp(e, c);
    case 's' => TrieSvg(e, c);
    case 'a' => TrieSvg(e, c);
    case 'f' => TrieFlv(e, c);
    case '3' => TrieFlv(e, c);
    case 'w' => TrieWebm(e, c);
    case _ => if e.MkvK? || e.MkvV? || e.MovV? { TrieMkv(e, c); } else { TrieMpeg(e, c); }
  }

  lemma TrieStart(c: char)
    ensures var t, s := [LowerCase(c)], ExtensionStart(c);
      && (s.InExtension? <==> BeginsExtension(t)) && (s.InExtension? ==> PartOf(s.letter) == t)
      && (!s.InExtension? ==> s == InPath(PathDot))
      && (BeginsExtension(t) ==> UrlChar(c))
  {
    hide BeginsExtension, LowerCase;
    LowerAgrees(c);
    var t := [LowerCase(c)];
    assert t[0] == LowerCase(c);
    ByFirstLetter(t);
    CharactersAgree(c);
    assert c == '3' <==> LowerCase(c) == '3' by { CharactersAgree(c); }
  }

  // ----- Paths -----

  /** The state of the parser is that of the text. */
  predicate Stands(s: Shape, k: Core) {
    && k.extension == s.extension
    && match s.ending
       case Slashes => k.state == InPath(HostSlash)
       case Plain => k.state == InPath(Path)
       case AfterDot => k.state == InPath(PathDot)
       case AfterSlash => k.state == InPath(PathSlash)
       case Inside(part) => k.state.InExtension? && PartOf(k.state.letter) == part
       case Behind => k.state == InPath(QueryOrEnd)
       case Asked => k.state == InPath(Query)
       case Broken => false
  }

  predicate KeepsPath(cfg: Config, s: Shape, k: Core, c: char)
    requires !Comparing(k.state)
  {
    var o := PlainOutcome(cfg, k, c);
    && o.Consume? && Stands(NextShape(s, c), o.next)
    && o.next == k.(state := o.next.state, extension := o.next.extension)
  }

  lemma PlainPath(cfg: Config, s: Shape, k: Core, c: char)
    requires Stands(s, k) && UrlChar(c)
    requires s.ending.Slashes? || s.ending.Plain? || s.ending.AfterSlash? || s.ending.Asked?
    ensures KeepsPath(cfg, s, k, c)
  {
    hide IsAllowable, IsEnding, IsSpace, IsLetterOrDigit, UrlChar, PathDotStep;
    CharactersAgree(c);
    NoBlank(c);
  }

  lemma BehindPath(cfg: Config, s: Shape, k: Core, c: char)
    requires Stands(s, k) && UrlChar(c) && s.ending.Behind? && !NextShape(s, c).ending.Broken?
    ensures KeepsPath(cfg, s, k, c)
  {
    hide IsAllowable, IsEnding, IsSpace, IsLetterOrDigit, UrlChar, Letter, Digit, PathDotStep;
    CharactersAgree(c);
    NoBlank(c);
  }

  lemma DotPath(cfg: Config, s: Shape, k: Core, c: char)
    requires Stands(s, k) && UrlChar(c) && s.ending.AfterDot?
    ensures KeepsPath(cfg, s, k, c)
  {
    hide IsAllowable, IsSpace, UrlChar, BeginsExtension, ExtensionStart, LowerCase;
    CharactersAgree(c);
    TrieStart(c);
  }

  lemma InsidePath(cfg: Config, s: Shape, k: Core, c: char)
    requires Stands(s, k) && UrlChar(c) && s.ending.Inside?
    ensures KeepsPath(cfg, s, k, c)
  {
    hide IsAllowable, UrlChar, BeginsExtension, ExtensionNamed, ExtensionNext, LowerCase, PartOf;
    CharactersAgree(c);
    Trie(k.state.letter, c);
  }

  lemma OddPath(cfg: Config, s: Shape, k: Core, c: char)
    requires Stands(s, k) && s.ending.Plain? && PathSign(s.ending, c) && !UrlChar(c)
    ensures KeepsPath(cfg, s, k, c)
  {
    hide IsAllowable, IsSpace, IsLetterOrDigit, PathDotStep;
    CharactersAgree(c);
  }

  /** One more character of a path. */
  lemma PathOutcome(cfg: Config, s: Shape, k: Core, c: char)
    requires Stands(s, k) && !NextShape(s, c).ending.Broken? && !s.ending.Broken?
    ensures !Comparing(k.state) && KeepsPath(cfg, s, k, c)
  {
    hide KeepsPath, UrlChar;
    if !UrlChar(c) {
      OddPath(cfg, s, k, c);
      return;
    }
    match s.ending
    case AfterDot => DotPath(cfg, s, k, c);
    case Inside(_) => InsidePath(cfg, s, k, c);
    case Behind => BehindPath(cfg, s, k, c);
    case _ => PlainPath(cfg, s, k, c);
  }

  lemma NoBlank(c: char)
    requires UrlChar(c)
    ensures !Blank(c) && c != '>' && c != '`'
  {
  }

  /** A whole path: the parser keeps every character and stands where the text does. */
  lemma {:induction false} PathRead(cfg: Config, s: Shape, k: Core, path: string)
    requires Stands(s, k) && !ShapeAfter(s, path).ending.Broken?
    ensures var n := PlainFeed(cfg, k, path);
      Stands(ShapeAfter(s, path), n) && n == k.(state := n.state, extension := n.extension, buf := k.buf + path)
  {
    hide Stands, NextShape, UrlChar, PlainOutcome;
    if path == "" {
      assert k.buf + path == k.buf;
    } else {
      var u, c := path[..|path| - 1], path[|path| - 1];
      StillBroken(ShapeAfter(s, u), c);
      PathRead(cfg, s, k, u);
      var m := PlainFeed(cfg, k, u);
      PathOutcome(cfg, ShapeAfter(s, u), m, c);
      StandsBuffer(NextShape(ShapeAfter(s, u), c), PlainOutcome(cfg, m, c).next, m.buf + [c]);
      assert k.buf + path == (k.buf + u) + [c];
    }
  }

  lemma StillBroken(s: Shape, c: char)
    ensures s.ending.Broken? ==> NextShape(s, c).ending.Broken?
  {
  }

  lemma StandsBuffer(s: Shape, k: Core, buf: string)
    ensures Stands(s, k) ==> Stands(s, k.(buf := buf))
  {
  }

  // ----- The end of a path -----

  /** The characters behind a path at which it properly ends. */
  predicate EndsPath(e: Ending, c: char) {
    match e
    case Plain => Blank(c) || c == '`' || c == '>'
    case Behind => Blank(c) || c == '>'
    case Inside(_) => false
    case Broken => false
    case _ => Blank(c)
  }

  lemma PathEnds(cfg: Config, s: Shape, k: Core, c: char)
    requires Stands(s, k) && DomainAccepted(cfg, k)
    ensures EndsPath(s.ending, c) ==> PlainOutcome(cfg, k, c) == Save(k)
  {
    hide IsAllowable, IsEnding, IsSpace, IsLetterOrDigit, DomainAccepted, PathDotStep, ExtensionNext;
    CharactersAgree(c);
    BlankNoUrlChar(c);
    if s.ending.AfterDot? && Blank(c) {
      BlankAfterDot(k, c);
    }
  }

  /** A character that neither ends a path nor goes on with it breaks it off. */
  lemma PathBreaks(cfg: Config, s: Shape, k: Core, c: char)
    requires Stands(s, k) && NextShape(s, c).ending.Broken? && !EndsPath(s.ending, c)
    ensures PlainOutcome(cfg, k, c) == Restart
  {
    hide IsAllowable, IsEnding, IsSpace, IsLetterOrDigit, DomainAccepted, PathDotStep;
    hide ExtensionNext, UrlChar, Letter, Digit;
    hide BeginsExtension, ExtensionNamed;
    CharactersAgree(c);
    if !UrlChar(c) {
      NoSignInside(k, c);
    }
    if c in "?!,#/:._" || Letter(c) || Digit(c) {
      SignsAreUrlChars(c);
    }
  }

  lemma SignsAreUrlChars(c: char)
    requires c in "?!,#/:._" || Letter(c) || Digit(c)
    ensures UrlChar(c)
  {
  }

  lemma NoSignInside(k: Core, c: char)
    requires !UrlChar(c)
    ensures forall e :: ExtensionNext(e, c).Other?
    ensures PathDotStep(k, c) == if Blank(c) then Save(k) else Restart
  {
    CharactersAgree(c);
  }

  lemma UrlCharRange(c: char)
    requires UrlChar(c)
    ensures c as int > 32 && c != '`' && c != '>'
  {
  }

  lemma BlankNoUrlChar(c: char)
    ensures Blank(c) || c == '`' || c == '>' ==> !UrlChar(c)
    ensures Blank(c) ==> c != '.' && c != '/' && c != '?' && c != '>' && c != '`'
    ensures Punctuation('`') && Punctuation('>') && !Blank('`') && !Blank('>')
  {
    hide UrlChar;
    if UrlChar(c) {
      UrlCharRange(c);
    }
  }

  lemma BlankInside(e: ExtensionState, c: char)
    requires Blank(c)
    ensures ExtensionNext(e, c).Other?
  {
  }

  lemma BlankAfterDot(k: Core, c: char)
    requires Blank(c)
    ensures PathDotStep(k, c) == Save(k)
  {
  }

  // ----- What is saved -----

  /** The report of a core's URL: its text without trailing punctuation, and the rest as the core has it. */
  predicate Tells(k: Core, u: Url) {
    && WithoutTrailing(k.buf, u.original)
    && (if k.hasPrefix then u.url == u.original && u.protocol == k.protocol
        else u.protocol == (if k.protocol.NoProtocol? then Http else k.protocol)
             && u.url == MachinePrefix(k.protocol) + u.original)
    && u.extension == k.extension && u.kind == KindOfExtension(k.extension, k.protocol)
  }

  function MachinePrefix(p: Protocol): string { if p.NoProtocol? then "http://" else SchemeName(p) + "://" }

  lemma {:induction false} Trailing(s: string)
    ensures WithoutTrailing(s, s[..|s| - TailLength(s)])
  {
    var n := TailLength(s);
    var o := s[..|s| - n];
    forall i | |o| <= i < |s|
      ensures Punctuation(s[i])
    {
      CharactersAgree(s[i]);
    }
    if o != "" {
      CharactersAgree(o[|o| - 1]);
    }
  }

  /** A core that is neither an address nor a shared file and whose host is accepted is saved so. */
  predicate Savable(cfg: Config, k: Core) {
    && !NeverSaved(k.state) && !k.state.CompareSafe? && !k.state.ProfileId? && !k.state.FilesharingId?
    && !(k.state.Host? && k.protocol.NoProtocol?) && !(k.segments == 1 && k.protocol.NoProtocol?)
    && !k.isEmail && DomainAccepted(cfg, k)
  }

  lemma KindAgrees(cfg: Config, t: Core)
    requires !t.isEmail && !t.state.FilesharingId? && DomainAccepted(cfg, t)
    ensures KindOf(cfg, t) == (true, KindOfExtension(t.extension, t.protocol)) && !KindOf(cfg, t).1.Email?
  {
    hide Accepted;
  }

  lemma PrefixAgrees(p: Protocol)
    ensures ProtocolPrefix(p) == MachinePrefix(p)
  {
  }

  lemma SavedIsTrimmed(cfg: Config, k: Core)
    requires Savable(cfg, k)
    ensures var t := Trimmed(k);
      SaveUrl(cfg, k) == (true, t.(report := Reported(MakeUrl(t, KindOfExtension(t.extension, t.protocol)))))
  {
    hide TailLength, Accepted, NeverSaved, KindOf, KindOfExtension, MakeUrl;
    var t := Trimmed(k);
    assert DomainAccepted(cfg, t) == DomainAccepted(cfg, k);
    KindAgrees(cfg, t);
  }

  lemma SavedTells(cfg: Config, k: Core)
    requires Savable(cfg, k)
    ensures var (ok, n) := SaveUrl(cfg, k); ok && n.report.Reported? && Tells(k, n.report.found)
  {
    hide TailLength, WithoutTrailing, Savable, SaveUrl, ProtocolPrefix, MachinePrefix;
    Trailing(k.buf);
    SavedIsTrimmed(cfg, k);
    PrefixAgrees(k.protocol);
  }
}
