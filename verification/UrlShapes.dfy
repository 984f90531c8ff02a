/** The fixed URLs of the client have the shape that the parser can take back. */
module UrlShapes {
  import opened UrlTypes
  import opened UrlMachine
  import opened UrlInvariant
  import opened UrlParsing

  predicate Names(s: string) { forall i :: 0 <= i < |s| ==> NameChar(s[i]) }

  predicate IsLabel(s: string) { s != "" && IsLetterOrDigit(s[0]) && Names(s) }

  predicate IsPath(s: string) { forall i :: 0 <= i < |s| ==> PathChar(s[i]) }

  /** `first.label.label…` */
  function HostText(first: string, labels: seq<string>): string {
    if labels == [] then first else HostText(first, labels[..|labels| - 1]) + "." + labels[|labels| - 1]
  }

  /** `w`, `ww` or `www`, in any case of letters. */
  predicate IsWww(s: string) { 1 <= |s| <= 3 && forall i :: 0 <= i < |s| ==> Is(s[i], 'w') }

  /** At least two labels; the parser takes a first label `w`, `ww` or `www` for no label of a fixed URL. */
  predicate IsHost(first: string, labels: seq<string>) {
    && IsLabel(first) && !IsWww(first)
    && labels != [] && forall i :: 0 <= i < |labels| ==> IsLabel(labels[i])
  }

  lemma PhaseSnoc(tld: string -> bool, s: string, c: char)
    ensures PhaseAfter(tld, s + [c]) == NextPhase(tld, PhaseAfter(tld, s), c)
  {
    hide NextPhase;
    assert (s + [c])[..|s|] == s;
  }

  lemma {:induction false} FirstNames(tld: string -> bool, first: string)
    requires IsLabel(first)
    ensures PhaseAfter(tld, first) == if IsWww(first) then Ws(|first|) else First
  {
    var u, c := first[..|first| - 1], first[|first| - 1];
    assert u + [c] == first;
    PhaseSnoc(tld, u, c);
    if u == "" {
    } else {
      FirstNames(tld, u);
      assert IsWww(first) <==> IsWww(u) && |u| < 3 && Is(c, 'w');
    }
  }

  lemma {:induction false} LabelNames(tld: string -> bool, s: string, l: string)
    requires PhaseAfter(tld, s) == Dot && IsLabel(l)
    ensures PhaseAfter(tld, s + l) == Label(Lower(l))
  {
    var u, c := l[..|l| - 1], l[|l| - 1];
    assert s + l == (s + u) + [c];
    PhaseSnoc(tld, s + u, c);
    if u == "" {
      assert s + u == s && Lower(l) == [ToLower(c)];
    } else {
      LabelNames(tld, s, u);
      assert Lower(l) == Lower(u) + [ToLower(c)];
    }
  }

  lemma {:induction false} HostPhase(tld: string -> bool, first: string, labels: seq<string>)
    requires IsHost(first, labels)
    ensures PhaseAfter(tld, HostText(first, labels)) == Label(Lower(labels[|labels| - 1]))
  {
    var n := |labels| - 1;
    var host := HostText(first, labels[..n]);
    if n == 0 {
      FirstNames(tld, first);
    } else {
      HostPhase(tld, first, labels[..n]);
    }
    PhaseSnoc(tld, host, '.');
    assert host + ['.'] == host + ".";
    LabelNames(tld, host + ".", labels[n]);
  }

  lemma {:induction false} PathPhase(tld: string -> bool, s: string, path: string)
    requires PhaseAfter(tld, s) == Tail && IsPath(path)
    ensures PhaseAfter(tld, s + path) == Tail
  {
    if path == "" {
      assert s + path == s;
    } else {
      var u, c := path[..|path| - 1], path[|path| - 1];
      assert s + path == (s + u) + [c];
      PathPhase(tld, s, u);
      PhaseSnoc(tld, s + u, c);
    }
  }

  /** Every host with an accepted top-level domain, followed by a simple path, can be a fixed URL. */
  lemma HostItemWellShaped(tld: string -> bool, first: string, labels: seq<string>, path: string, ok: State, safe: int)
    requires IsHost(first, labels) && tld(Lower(labels[|labels| - 1])) && IsPath(path)
    requires ok.FilesharingId? || ok.ProfileId?
    ensures WellShapedItem(tld, Item(HostText(first, labels) + "/" + path, ok, safe))
  {
    var host := HostText(first, labels);
    HostPhase(tld, first, labels);
    PhaseSnoc(tld, host, '/');
    assert host + ['/'] == host + "/";
    PathPhase(tld, host + "/", path);
  }

  lemma FilesItemWellShaped(tld: string -> bool, first: string, labels: seq<string>)
    requires IsHost(first, labels) && tld(Lower(labels[|labels| - 1]))
    ensures WellShapedItem(tld, FilesItem(HostText(first, labels)))
  {
    hide WellShapedItem, IsHost, Lower, HostText;
    var host := HostText(first, labels);
    Labels();
    HostItemWellShaped(tld, first, labels, "get/", FilesharingId, |host| - 1);
    assert GET_SUFFIX == "/" + "get/";
    assert host + GET_SUFFIX == host + "/" + "get/";
  }

  lemma NamedItemsWellShaped(tld: string -> bool)
    requires tld("com") && tld("net") && tld("ru")
    ensures WellShapedItem(tld, FilesItem(FILES_ICQ_NET)) && WellShapedItem(tld, FilesItem(FILES_MYTEAM_MAIL_RU))
    ensures WellShapedItem(tld, Item(ICQ_COM, FilesharingId, |"icq.com"| - 1))
    ensures WellShapedItem(tld, Item(CHAT_MY_COM, FilesharingId, |"chat.my.com"| - 1))
  {
    hide WellShapedItem, IsHost, IsPath, Lower, HostText;
    Joined();
    LowerCaseDomains();
    Labels();
    Hosts();
    FilesItemWellShaped(tld, "files", ["icq", "net"]);
    FilesItemWellShaped(tld, "files", ["myteam", "mail", "ru"]);
    HostItemWellShaped(tld, "icq", ["com"], "files/", FilesharingId, |"icq.com"| - 1);
    HostItemWellShaped(tld, "chat", ["my", "com"], "files/", FilesharingId, |"chat.my.com"| - 1);
  }

  /** So the built-in fixed URLs meet the parser's precondition, whatever the build. */
  lemma BuiltInsWellShaped(tld: string -> bool, first: string, labels: seq<string>, biz: bool, dit: bool)
    requires tld("com") && tld("net") && tld("ru")
    requires IsHost(first, labels) && tld(Lower(labels[|labels| - 1]))
    ensures WellShaped(Config(BuiltInItems(HostText(first, labels), biz), biz, dit, tld))
  {
    hide WellShapedItem, IsHost, Lower, HostText, FilesItem;
    FilesItemWellShaped(tld, first, labels);
    NamedItemsWellShaped(tld);
  }

  lemma HostSnoc(first: string, labels: seq<string>, last: string)
    ensures HostText(first, []) == first
    ensures HostText(first, labels + [last]) == HostText(first, labels) + "." + last
  {
    assert (labels + [last])[..|labels|] == labels;
  }

  lemma OneLabel(first: string, a: string)
    ensures HostText(first, [a]) == first + "." + a
  {
    hide HostText;
    HostSnoc(first, [], a);
    assert [] + [a] == [a];
  }

  lemma TwoLabels(first: string, a: string, b: string)
    ensures HostText(first, [a, b]) == first + "." + a + "." + b
  {
    hide HostText;
    OneLabel(first, a);
    HostSnoc(first, [a], b);
    assert [a] + [b] == [a, b];
  }

  lemma ThreeLabels(first: string, a: string, b: string, c: string)
    ensures HostText(first, [a, b, c]) == first + "." + a + "." + b + "." + c
  {
    hide HostText;
    TwoLabels(first, a, b);
    HostSnoc(first, [a, b], c);
    assert [a, b] + [c] == [a, b, c];
  }

  lemma Joined()
    ensures HostText("icq", ["com"]) + "/" + "files/" == ICQ_COM
    ensures HostText("chat", ["my", "com"]) + "/" + "files/" == CHAT_MY_COM
    ensures HostText("files", ["icq", "net"]) == FILES_ICQ_NET
    ensures HostText("files", ["myteam", "mail", "ru"]) == FILES_MYTEAM_MAIL_RU
  {
    hide HostText;
    OneLabel("icq", "com");
    TwoLabels("chat", "my", "com");
    TwoLabels("files", "icq", "net");
    ThreeLabels("files", "myteam", "mail", "ru");
  }

  lemma LowerCaseDomains()
    ensures Lower("com") == "com" && Lower("net") == "net" && Lower("ru") == "ru"
  {
  }

  lemma Labels()
    ensures IsLabel("icq") && IsLabel("com") && IsLabel("chat") && IsLabel("my") && IsLabel("files") && IsLabel("net")
    ensures IsLabel("myteam") && IsLabel("mail") && IsLabel("ru")
    ensures IsPath("files/") && IsPath("get/")
  {
  }

  lemma Hosts()
    ensures IsHost("icq", ["com"]) && IsHost("chat", ["my", "com"])
    ensures IsHost("files", ["icq", "net"]) && IsHost("files", ["myteam", "mail", "ru"])
  {
    hide IsLabel;
    Labels();
  }
}
