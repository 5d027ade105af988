/**
 * d4pg/d4pg-speakers/js/main.js: the speaker bios loaded as JSON, looked
 * up by id; the social-link and publication blocks of the bio modal; the
 * Markdown-style bio formatter; and the speaker search that hides
 * non-matching cards and shows a "no results" line when nothing matches.
 *
 * A missing text field is the empty string, which JavaScript treats as
 * false exactly like `undefined`; a missing list is the empty list.
 */
module Speakers {
  import opened Wrappers
  import opened Strings

  /** One social link: its `type`, `url` and optional `display` text. */
  datatype Link = Link(kind: string, url: string, display: string)

  /** An organisation with its name and links. */
  datatype Org = Org(name: string, links: seq<Link>)

  /** `speaker.social`: personal links, one `organization`, several `organizations`. */
  datatype Social = Social(personal: seq<Link>, organization: Option<Org>, organizations: seq<Org>)

  /** One promoted book. */
  datatype Book = Book(title: string, description: string, coverImage: string, purchaseUrl: string, buttonLabel: string)

  /** `speaker.promotional` */
  datatype Promotional = Promotional(books: seq<Book>)

  datatype Speaker = Speaker(id: string, name: string, title: string, bio: seq<string>,
                             social: Social, promotional: Option<Promotional>)

  // --------------------------------------------------------------- lookup

  /** The index of the first speaker with this id at or after `k`. */
  function IndexOfId(ss: seq<Speaker>, id: string, k: nat): (r: Option<nat>)
    ensures r.Some? ==> k <= r.value < |ss| && ss[r.value].id == id
    ensures r.Some? ==> forall j :: k <= j < r.value ==> ss[j].id != id
    ensures r.None? ==> forall j :: k <= j < |ss| ==> ss[j].id != id
    decreases |ss| - k
  {
    if k >= |ss| then None
    else if ss[k].id == id then Some(k)
    else IndexOfId(ss, id, k + 1)
  }

  /**
   * `findSpeakerById(id)`: nothing while the data is not loaded; otherwise
   * the first speaker with that id, if any.
   */
  function FindSpeakerById(data: Option<seq<Speaker>>, id: string): (r: Option<Speaker>)
    ensures data.None? ==> r.None?
    ensures data.Some? && r.None? ==> forall s :: s in data.value ==> s.id != id
    ensures r.Some? ==> data.Some? && r.value.id == id &&
                        exists k :: 0 <= k < |data.value| && data.value[k] == r.value &&
                                    forall j :: 0 <= j < k ==> data.value[j].id != id
  {
    if data.None? then None
    else match IndexOfId(data.value, id, 0)
      case None => None
      case Some(k) => Some(data.value[k])
  }

  // --------------------------------------------------------- social links

  /** An icon: one of the simple-icons SVGs (its file and alt text) or a character. */
  datatype Icon = Svg(file: string, alt: string) | Glyph(text: string)

  /** The platforms the page knows. */
  const KnownPlatforms: set<string> :=
    {"instagram", "twitter", "linkedin", "github", "youtube", "facebook",
     "mastodon", "bluesky", "tiktok", "website"}

  /**
   * `getSocialIcon(type)`: a link of unknown type gets the chain-link
   * glyph, and only such links do.
   */
  function SocialIcon(kind: string): (r: Icon)
    ensures kind !in KnownPlatforms <==> r == Glyph("🔗")
    ensures r.Svg? <==> kind in KnownPlatforms && kind != "bluesky" && kind != "website"
  {
    if kind == "instagram" then Svg("instagram", "Instagram")
    else if kind == "twitter" then Svg("x", "Twitter/X")
    else if kind == "linkedin" then Svg("linkedin", "LinkedIn")
    else if kind == "github" then Svg("github", "GitHub")
    else if kind == "youtube" then Svg("youtube", "YouTube")
    else if kind == "facebook" then Svg("facebook", "Facebook")
    else if kind == "mastodon" then Svg("mastodon", "Mastodon")
    else if kind == "bluesky" then Glyph("🦋")
    else if kind == "tiktok" then Svg("tiktok", "TikTok")
    else if kind == "website" then Glyph("🌐")
    else Glyph("🔗")
  }

  /**
   * `getPlatformName(type)`, the link's title and accessible name: the
   * platform's own name for a known type, "Link" for any other.
   */
  function PlatformName(kind: string): (r: string)
    ensures kind !in KnownPlatforms <==> r == "Link"
    ensures kind in KnownPlatforms ==> Lower(r) == kind
  {
    if kind == "instagram" then "Instagram"
    else if kind == "twitter" then "Twitter"
    else if kind == "linkedin" then "LinkedIn"
    else if kind == "github" then "GitHub"
    else if kind == "youtube" then "YouTube"
    else if kind == "facebook" then "Facebook"
    else if kind == "mastodon" then "Mastodon"
    else if kind == "bluesky" then "Bluesky"
    else if kind == "tiktok" then "TikTok"
    else if kind == "website" then "Website"
    else "Link"
  }

  /** Strip one optional `www.`. */
  function StripWww(s: string): string {
    if StartsWith(s, "www.") then s[4..] else s
  }

  /** `url.replace(/^https?:\/\/(www\.)?/, '')` */
  function StripScheme(url: string): (r: string)
    ensures |r| <= |url|
  {
    if StartsWith(url, "https://") then StripWww(url[8..])
    else if StartsWith(url, "http://") then StripWww(url[7..])
    else url
  }

  /**
   * The scheme and one `www.` go, for either scheme; text that does not
   * begin with a scheme stays as it is, `www.` included.
   */
  lemma StripSchemeOf(rest: string)
    requires !StartsWith(rest, "www.")
    ensures StripScheme("https://" + rest) == rest && StripScheme("http://" + rest) == rest
    ensures StripScheme("https://www." + rest) == rest && StripScheme("http://www." + rest) == rest
    ensures StripScheme("www." + rest) == "www." + rest
  {
    StripHttps(rest);
    StripHttp(rest);
    assert ("www." + rest)[0] == 'w';
  }

  lemma StripHttps(rest: string)
    requires !StartsWith(rest, "www.")
    ensures StripScheme("https://" + rest) == rest && StripScheme("https://www." + rest) == rest
  {
    assert ("https://" + rest)[8..] == rest;
    assert ("https://www." + rest)[8..] == "www." + rest;
    assert ("www." + rest)[4..] == rest;
  }

  lemma StripHttp(rest: string)
    requires !StartsWith(rest, "www.")
    ensures StripScheme("http://" + rest) == rest && StripScheme("http://www." + rest) == rest
  {
    assert ("http://" + rest)[4] == ':' && ("http://www." + rest)[4] == ':';
    assert ("http://" + rest)[7..] == rest;
    assert ("http://www." + rest)[7..] == "www." + rest;
    assert ("www." + rest)[4..] == rest;
  }

  /** What a website link shows: its `display` text, else the cleaned URL. */
  function WebsiteText(l: Link): (r: string)
    ensures l.display != "" ==> r == l.display
    ensures l.display == "" ==> r == StripScheme(l.url)
  {
    if l.display != "" then l.display else StripScheme(l.url)
  }

  /** A link's content: website links show icon and text, others a large icon only. */
  datatype LinkContent = IconAndText(icon: Icon, text: string) | LargeIcon(icon: Icon)

  /** One rendered `<a>`: its target, the extra `website` class, its title, its content. */
  datatype Anchor = Anchor(href: string, websiteClass: bool, title: string, content: LinkContent)

  /** One `speaker-social-card`: a heading and its anchors. */
  datatype SocialCard = SocialCard(heading: string, anchors: seq<Anchor>)

  function RenderLink(l: Link): Anchor {
    var icon := SocialIcon(l.kind);
    Anchor(l.url, l.kind == "website", PlatformName(l.kind),
           if l.kind == "website" then IconAndText(icon, WebsiteText(l)) else LargeIcon(icon))
  }

  /**
   * `createSocialLinks(socialData, title)`: nothing (the empty string) for
   * no links; otherwise a card under `title` with one anchor per link, in
   * order, where only website links carry text.
   */
  function CreateSocialLinks(links: seq<Link>, heading: string): (r: Option<SocialCard>)
    ensures r.None? <==> links == []
    ensures r.Some? ==> r.value.heading == heading && |r.value.anchors| == |links|
    ensures r.Some? ==> forall k :: 0 <= k < |links| ==>
              r.value.anchors[k].href == links[k].url &&
              r.value.anchors[k].title == PlatformName(links[k].kind) &&
              (r.value.anchors[k].content.IconAndText? <==> links[k].kind == "website") &&
              (links[k].kind == "website" ==> r.value.anchors[k].content.text == WebsiteText(links[k]))
  {
    if links == [] then None
    else Some(SocialCard(heading, seq(|links|, k requires 0 <= k < |links| => RenderLink(links[k]))))
  }

  /**
   * The social block of the modal: the personal links under "Personal
   * Links", then the organisation's links under its name, then each
   * organisation's; a group without links adds nothing.
   */
  function SocialCards(s: Social): (r: seq<SocialCard>)
    ensures |r| <= 2 + |s.organizations|
    ensures s.personal != [] ==> |r| >= 1 && r[0].heading == "Personal Links"
    decreases |s.organizations|
  {
    if s.organizations != [] then
      var last := s.organizations[|s.organizations| - 1];
      var front := SocialCards(s.(organizations := s.organizations[..|s.organizations| - 1]));
      front + OptionToSeq(CreateSocialLinks(last.links, last.name))
    else
      OptionToSeq(CreateSocialLinks(s.personal, "Personal Links")) +
      (if s.organization.Some? then OptionToSeq(CreateSocialLinks(s.organization.value.links, s.organization.value.name))
       else [])
  }

  function OptionToSeq<T>(o: Option<T>): (r: seq<T>)
    ensures |r| <= 1 && (o.Some? ==> r == [o.value])
  {
    if o.Some? then [o.value] else []
  }

  /** The organisations that have links, in order. */
  function Linked(os: seq<Org>): (r: seq<Org>)
    ensures |r| <= |os|
    ensures forall o :: o in r ==> o in os && o.links != []
  {
    if os == [] then []
    else (if os[0].links != [] then [os[0]] else []) + Linked(os[1..])
  }

  /**
   * The cards the `organizations.forEach` adds, written front to back:
   * one card per organisation with links, under its name, with one anchor
   * per link.
   */
  function OrgCards(os: seq<Org>): seq<SocialCard> {
    FlatMap(OrgCard, os)
  }

  /** The card one organisation adds: none when it has no links. */
  function OrgCard(o: Org): seq<SocialCard> {
    OptionToSeq(CreateSocialLinks(o.links, o.name))
  }

  /** `f` applied to each element, the results concatenated in order. */
  function FlatMap<T, U>(f: T -> seq<U>, xs: seq<T>): seq<U> {
    if xs == [] then [] else f(xs[0]) + FlatMap(f, xs[1..])
  }

  lemma {:induction false} FlatMapAppend<T, U>(f: T -> seq<U>, x: seq<T>, y: seq<T>)
    ensures FlatMap(f, x + y) == FlatMap(f, x) + FlatMap(f, y)
  {
    if x == [] {
      assert x + y == y;
    } else {
      assert (x + y)[0] == x[0] && (x + y)[1..] == x[1..] + y;
      FlatMapAppend(f, x[1..], y);
    }
  }

  /** The k-th organisation card belongs to the k-th organisation with links. */
  lemma {:induction false} OrgCardsLinked(os: seq<Org>)
    ensures |OrgCards(os)| == |Linked(os)|
    ensures forall k :: 0 <= k < |OrgCards(os)| ==>
              OrgCards(os)[k].heading == Linked(os)[k].name &&
              |OrgCards(os)[k].anchors| == |Linked(os)[k].links|
  {
    if os != [] {
      OrgCardsLinked(os[1..]);
      var c := CreateSocialLinks(os[0].links, os[0].name);
      assert c.Some? <==> os[0].links != [];
    }
  }

  lemma OrgCardsAppend(x: seq<Org>, y: seq<Org>)
    ensures OrgCards(x + y) == OrgCards(x) + OrgCards(y)
  {
    FlatMapAppend(OrgCard, x, y);
  }

  /** One more organisation adds its card, if it has links, at the end. */
  lemma SocialCardsSnoc(s: Social, o: Org)
    ensures SocialCards(s.(organizations := s.organizations + [o])) ==
            SocialCards(s) + OptionToSeq(CreateSocialLinks(o.links, o.name))
  {
    var all := s.organizations + [o];
    assert all[..|all| - 1] == s.organizations && all[|all| - 1] == o;
    assert s.(organizations := all[..|all| - 1]) == s;
  }

  /** `SocialCardsSnoc` after organisations already appended to `s`. */
  lemma SocialCardsSnocAfter(s: Social, front: seq<Org>, o: Org)
    ensures SocialCards(s.(organizations := s.organizations + (front + [o]))) ==
            SocialCards(s.(organizations := s.organizations + front)) + OptionToSeq(CreateSocialLinks(o.links, o.name))
  {
    var mid := s.(organizations := s.organizations + front);
    assert mid.organizations + [o] == s.organizations + (front + [o]);
    assert s.(organizations := s.organizations + (front + [o])) == mid.(organizations := mid.organizations + [o]);
    SocialCardsSnoc(mid, o);
  }

  /** One more organisation adds its card, if it has links, at the end of the organisation cards. */
  lemma OrgCardsSnoc(front: seq<Org>, o: Org)
    ensures OrgCards(front + [o]) == OrgCards(front) + OptionToSeq(CreateSocialLinks(o.links, o.name))
  {
    OrgCardsAppend(front, [o]);
    assert [o][1..] == [];
    assert FlatMap(OrgCard, [o]) == OrgCard(o) + FlatMap(OrgCard, []);
    assert OrgCard(o) + [] == OrgCard(o);
  }

  /**
   * More organisations append their cards: the block for `a + b` is the
   * block for `a` followed by one card per entry of `b` that has links,
   * in `b`'s order, each headed by its name.
   */
  lemma {:induction false} SocialCardsAppend(s: Social, b: seq<Org>)
    ensures SocialCards(s.(organizations := s.organizations + b)) == SocialCards(s) + OrgCards(b)
    decreases |b|
  {
    if b == [] {
      assert s.organizations + b == s.organizations;
      assert s.(organizations := s.organizations + b) == s;
    } else {
      var front, o := b[..|b| - 1], b[|b| - 1];
      assert b == front + [o];
      var card := OptionToSeq(CreateSocialLinks(o.links, o.name));
      SocialCardsSnocAfter(s, front, o);
      SocialCardsAppend(s, front);
      OrgCardsSnoc(front, o);
      var x, y := SocialCards(s), OrgCards(front);
      assert x + y + card == x + (y + card);
    }
  }

  /**
   * The whole social block, in order: the personal card if there are
   * personal links, the organisation's card if it has links, then one card
   * per organisation with links; so there are exactly as many cards as
   * groups with links.
   */
  lemma SocialCardsOrder(s: Social)
    ensures SocialCards(s) ==
              OptionToSeq(CreateSocialLinks(s.personal, "Personal Links")) +
              (if s.organization.Some? then OptionToSeq(CreateSocialLinks(s.organization.value.links, s.organization.value.name))
               else []) +
              OrgCards(s.organizations)
    ensures |SocialCards(s)| ==
              (if s.personal != [] then 1 else 0) +
              (if s.organization.Some? && s.organization.value.links != [] then 1 else 0) +
              |Linked(s.organizations)|
  {
    var s0 := s.(organizations := []);
    SocialCardsAppend(s0, s.organizations);
    OrgCardsLinked(s.organizations);
    assert s0.(organizations := s0.organizations + s.organizations) == s;
  }

  // ---------------------------------------------------------- publications

  /** One `promotional-book` panel; the description paragraph appears only when there is one. */
  datatype BookPanel = BookPanel(cover: string, alt: string, title: string,
                                 description: Option<string>, purchaseUrl: string, buttonLabel: string)

  /**
   * `createPromotionalContent(promotional)`: no section (the empty string,
   * which hides the block) without promotional data or without books;
   * otherwise one panel per book, in order.
   */
  function CreatePromotionalContent(p: Option<Promotional>): (r: Option<seq<BookPanel>>)
    ensures r.None? <==> p.None? || p.value.books == []
    ensures r.Some? ==> |r.value| == |p.value.books|
    ensures r.Some? ==> forall k :: 0 <= k < |r.value| ==>
              r.value[k].title == p.value.books[k].title &&
              r.value[k].alt == p.value.books[k].title + " book cover" &&
              (r.value[k].description.Some? <==> p.value.books[k].description != "")
  {
    if p.None? || p.value.books == [] then None
    else
      var bs := p.value.books;
      Some(seq(|bs|, k requires 0 <= k < |bs| =>
        BookPanel(bs[k].coverImage, bs[k].title + " book cover", bs[k].title,
                  if bs[k].description != "" then Some(bs[k].description) else None,
                  bs[k].purchaseUrl, bs[k].buttonLabel)))
  }

  // ------------------------------------------------------------ bio text

  /** The four Markdown-style rewrites, applied in this order. */
  datatype Markup = LinkRule | BoldRule | ItalicRule | UnderlineRule

  /** How many characters from `k` on differ from `stop` (a greedy `[^stop]+`). */
  function Run(s: string, k: nat, stop: char): (n: nat)
    requires k <= |s|
    ensures k + n <= |s|
    ensures forall j :: k <= j < k + n ==> s[j] != stop
    ensures k + n == |s| || s[k + n] == stop
    decreases |s| - k
  {
    if k == |s| || s[k] == stop then 0 else 1 + Run(s, k + 1, stop)
  }

  /** `cc([^c]+)cc` at `i` (bold with `*`, underline with `_`): where it ends and what replaces it. */
  function PairAt(s: string, i: nat, c: char, open: string, close: string): (r: Option<(nat, string)>)
    requires i < |s|
    ensures r.Some? ==> i < r.value.0 <= |s|
  {
    if i + 1 < |s| && s[i] == c && s[i + 1] == c then
      var e := i + 2 + Run(s, i + 2, c);
      if e > i + 2 && e + 1 < |s| && s[e + 1] == c then Some((e + 2, open + s[i + 2..e] + close))
      else None
    else None
  }

  /** Where a match of the rule starting at `i` ends and what replaces it. */
  function MatchAt(s: string, m: Markup, i: nat): (r: Option<(nat, string)>)
    requires i < |s|
    ensures r.Some? ==> i < r.value.0 <= |s|
  {
    match m
    case BoldRule => PairAt(s, i, '*', "<strong class=\"bio-bold\">", "</strong>")
    case UnderlineRule => PairAt(s, i, '_', "<u class=\"bio-underline\">", "</u>")
    case ItalicRule => ItalicAt(s, i)
    case LinkRule => LinkAt(s, i)
  }

  /** `(?<!\*)\*([^*]+)\*(?!\*)` at `i`: where it ends and the `<em>` that replaces it. */
  function ItalicAt(s: string, i: nat): (r: Option<(nat, string)>)
    requires i < |s|
    ensures r.Some? ==> i < r.value.0 <= |s|
  {
    if s[i] == '*' && (i == 0 || s[i - 1] != '*') then
      var e := i + 1 + Run(s, i + 1, '*');
      if e > i + 1 && e < |s| && (e + 1 == |s| || s[e + 1] != '*') then
        Some((e + 1, Em(s[i + 1..e])))
      else None
    else None
  }

  /** `\[([^\]]+)\]\(([^)]+)\)` at `i`: where it ends and the anchor that replaces it. */
  function LinkAt(s: string, i: nat): (r: Option<(nat, string)>)
    requires i < |s|
    ensures r.Some? ==> i < r.value.0 <= |s|
  {
    if s[i] == '[' then
      var t: nat := i + 1 + Run(s, i + 1, ']');
      if t > i + 1 && t + 1 < |s| && s[t + 1] == '(' then
        var u: nat := t + 2 + Run(s, t + 2, ')');
        if u > t + 2 && u < |s| then Some((u + 1, BioLink(s[i + 1..t], s[t + 2..u])))
        else None
      else None
    else None
  }

  /** A global `replace` of the rule over `s` from `i`, scanning left to right. */
  function Rewrite(s: string, m: Markup, i: nat): string
    decreases |s| - i
  {
    if i >= |s| then ""
    else match MatchAt(s, m, i)
      case Some((e, rep)) => rep + Rewrite(s, m, e)
      case None => [s[i]] + Rewrite(s, m, i + 1)
  }

  /** The character every match of a rule starts with. */
  function Opener(m: Markup): char {
    match m
    case LinkRule => '['
    case BoldRule => '*'
    case ItalicRule => '*'
    case UnderlineRule => '_'
  }

  /** Text without the rule's opening character comes out unchanged. */
  lemma {:induction false} RewritePlain(s: string, m: Markup, i: nat)
    requires i <= |s| && Opener(m) !in s
    ensures Rewrite(s, m, i) == s[i..]
    decreases |s| - i
  {
    if i < |s| {
      assert s[i] in s;
      assert MatchAt(s, m, i).None?;
      RewritePlain(s, m, i + 1);
      assert s[i..] == [s[i]] + s[i + 1..];
    }
  }

  /** One paragraph through the four rewrites; plain text (no `[`, `*` or `_`) is left as it is. */
  function FormatParagraph(p: string): (r: string)
    ensures '[' !in p && '*' !in p && '_' !in p ==> r == p
  {
    if '[' !in p && '*' !in p && '_' !in p then
      RewritePlain(p, LinkRule, 0);
      RewritePlain(p, BoldRule, 0);
      RewritePlain(p, ItalicRule, 0);
      RewritePlain(p, UnderlineRule, 0);
      assert p[0..] == p;
      Rewrite(Rewrite(Rewrite(Rewrite(p, LinkRule, 0), BoldRule, 0), ItalicRule, 0), UnderlineRule, 0)
    else
      Rewrite(Rewrite(Rewrite(Rewrite(p, LinkRule, 0), BoldRule, 0), ItalicRule, 0), UnderlineRule, 0)
  }

  /** The `<strong>` a bold run becomes. */
  function Strong(b: string): string {
    "<strong class=\"bio-bold\">" + b + "</strong>"
  }

  /** `**b**` is one bold match, spanning the whole text. */
  lemma BoldMatch(b: string)
    requires b != [] && '*' !in b
    ensures MatchAt("**" + b + "**", BoldRule, 0) == Some((|b| + 4, Strong(b)))
  {
    var p := "**" + b + "**";
    var e := 2 + Run(p, 2, '*');
    assert forall j :: 2 <= j < 2 + |b| ==> p[j] == b[j - 2];
    assert p[2 + |b|] == '*' && p[3 + |b|] == '*';
    assert e == 2 + |b|;
    assert p[2..e] == b;
  }

  /** The markup added around a bold run holds no `*`, `_` or `[`. */
  lemma StrongPlain(b: string)
    requires '[' !in b && '*' !in b && '_' !in b
    ensures '[' !in Strong(b) && '*' !in Strong(b) && '_' !in Strong(b)
  {
    var o := "<strong class=\"bio-bold\">";
    var c := "</strong>";
    assert forall j :: 0 <= j < |o| ==> o[j] != '[' && o[j] != '*' && o[j] != '_';
    assert forall j :: 0 <= j < |c| ==> c[j] != '[' && c[j] != '*' && c[j] != '_';
    var q := Strong(b);
    forall j | 0 <= j < |q| ensures q[j] != '[' && q[j] != '*' && q[j] != '_' {
      if j < |o| {
        assert q[j] == o[j];
      } else if j < |o| + |b| {
        assert q[j] == b[j - |o|] && b[j - |o|] in b;
      } else {
        assert q[j] == c[j - |o| - |b|];
      }
    }
  }

  /** A paragraph that is one `**bold**` run becomes one `<strong>`, not an `<em>`. */
  lemma FormatBold(b: string)
    requires b != [] && '[' !in b && '*' !in b && '_' !in b
    ensures FormatParagraph("**" + b + "**") == Strong(b)
  {
    var p := "**" + b + "**";
    var q := Strong(b);
    assert '[' !in p;
    RewritePlain(p, LinkRule, 0);
    assert p[0..] == p;
    BoldMatch(b);
    assert Rewrite(p, BoldRule, |p|) == "";
    assert Rewrite(p, BoldRule, 0) == q;
    StrongPlain(b);
    RewritePlain(q, ItalicRule, 0);
    RewritePlain(q, UnderlineRule, 0);
    assert q[0..] == q;
    assert Rewrite(p, LinkRule, 0) == p;
    assert Rewrite(q, ItalicRule, 0) == q;
  }

  /** The `<em>` an italic run becomes. */
  function Em(i: string): string {
    "<em class=\"bio-italic\">" + i + "</em>"
  }

  /** The `<u>` an underline run becomes. */
  function Underlined(u: string): string {
    "<u class=\"bio-underline\">" + u + "</u>"
  }

  /** The anchor a `[text](url)` link becomes: the URL goes between the opening and the middle. */
  function BioLink(text: string, url: string): string {
    LinkOpen + url + LinkTarget + LinkRel + text + LinkClose
  }

  const LinkOpen: string := "<a href=\""
  const LinkTarget: string := "\" target=\"_blank\""
  const LinkRel: string := " rel=\"noopener noreferrer\" class=\"bio-link\">"
  const LinkClose: string := "</a>"

  /** No markup character at all: none of the four rules can start in `s`. */
  predicate Plain(s: string) {
    '[' !in s && '*' !in s && '_' !in s
  }

  /** No two `c` side by side in `s`, so a `cc…cc` rule finds no match. */
  predicate NoPair(s: string, c: char) {
    forall j :: 0 <= j < |s| - 1 ==> !(s[j] == c && s[j + 1] == c)
  }

  lemma AbsentNoPair(s: string, c: char)
    requires c !in s
    ensures NoPair(s, c)
  {
    forall j | 0 <= j < |s| - 1 ensures s[j] != c {
      assert s[j] in s;
    }
  }

  /** Two texts without a pair of `c` join without one unless a `c` ends the first and starts the second. */
  lemma NoPairJoin(x: string, y: string, c: char)
    requires NoPair(x, c) && NoPair(y, c)
    requires x == [] || y == [] || x[|x| - 1] != c || y[0] != c
    ensures NoPair(x + y, c)
  {
    var s := x + y;
    forall j | 0 <= j < |s| - 1 ensures !(s[j] == c && s[j + 1] == c) {
      if j + 1 < |x| {
        assert s[j] == x[j] && s[j + 1] == x[j + 1];
      } else if j >= |x| {
        assert s[j] == y[j - |x|] && s[j + 1] == y[j + 1 - |x|];
      }
    }
  }

  /** The bold and underline rules leave text without a doubled opener unchanged. */
  lemma {:induction false} RewriteNoPair(s: string, m: Markup, i: nat)
    requires m == BoldRule || m == UnderlineRule
    requires i <= |s| && NoPair(s, Opener(m))
    ensures Rewrite(s, m, i) == s[i..]
    decreases |s| - i
  {
    if i < |s| {
      assert MatchAt(s, m, i).None?;
      RewriteNoPair(s, m, i + 1);
      assert s[i..] == [s[i]] + s[i + 1..];
    }
  }

  /** The text a rule's match is replaced by holds no markup character when its parts hold none. */
  lemma PlainJoin(x: string, y: string)
    requires Plain(x) && Plain(y)
    ensures Plain(x + y)
  {
    forall ch | ch in x + y ensures ch != '[' && ch != '*' && ch != '_' {
      assert ch in x || ch in y;
    }
  }

  /** `*i*` is one italic match, spanning the whole text. */
  lemma ItalicMatch(i: string)
    requires i != [] && '*' !in i
    ensures MatchAt("*" + i + "*", ItalicRule, 0) == Some((|i| + 2, Em(i)))
  {
    var p := "*" + i + "*";
    assert forall j :: 1 <= j < 1 + |i| ==> p[j] == i[j - 1] && i[j - 1] in i;
    assert p[1 + |i|] == '*';
    assert Run(p, 1, '*') == |i|;
    assert p[1..1 + |i|] == i;
  }

  /** `*i*` holds no `**`, so the bold rule passes over it. */
  lemma SingleStarsNoPair(i: string)
    requires i != [] && '*' !in i
    ensures NoPair("*" + i + "*", '*')
  {
    AbsentNoPair(i, '*');
    NoPairJoin("*", i, '*');
    NoPairJoin("*" + i, "*", '*');
  }

  /** The markup added around an italic run holds no `*`, `_` or `[`. */
  lemma EmPlain(i: string)
    requires Plain(i)
    ensures Plain(Em(i))
  {
    var o := "<em class=\"bio-italic\">";
    var c := "</em>";
    assert forall j :: 0 <= j < |o| ==> o[j] != '[' && o[j] != '*' && o[j] != '_';
    assert forall j :: 0 <= j < |c| ==> c[j] != '[' && c[j] != '*' && c[j] != '_';
    assert Plain(o) && Plain(c);
    PlainJoin(o, i);
    PlainJoin(o + i, c);
  }

  /** A paragraph that is one `*italic*` run of plain text becomes one `<em>`. */
  lemma FormatItalic(i: string)
    requires i != [] && Plain(i)
    ensures FormatParagraph("*" + i + "*") == Em(i)
  {
    var p := "*" + i + "*";
    assert '[' !in p by {
      assert forall ch :: ch in p ==> ch == '*' || ch in i;
    }
    RewritePlain(p, LinkRule, 0);
    assert p[0..] == p;
    SingleStarsNoPair(i);
    RewriteNoPair(p, BoldRule, 0);
    ItalicMatch(i);
    assert Rewrite(p, ItalicRule, |p|) == "";
    assert Rewrite(p, ItalicRule, 0) == Em(i);
    EmPlain(i);
    RewritePlain(Em(i), UnderlineRule, 0);
    assert Em(i)[0..] == Em(i);
  }

  /** A paragraph that is one `__underline__` run of plain text becomes one `<u>`. */
  lemma FormatUnderline(u: string)
    requires u != [] && Plain(u)
    ensures FormatParagraph("__" + u + "__") == Underlined(u)
  {
    var p := "__" + u + "__";
    assert '[' !in p && '*' !in p by {
      assert forall ch :: ch in p ==> ch == '_' || ch in u;
    }
    RewritePlain(p, LinkRule, 0);
    RewritePlain(p, BoldRule, 0);
    RewritePlain(p, ItalicRule, 0);
    assert p[0..] == p;
    // one underline match over the whole paragraph
    assert forall j :: 2 <= j < 2 + |u| ==> p[j] == u[j - 2];
    assert p[2 + |u|] == '_' && p[3 + |u|] == '_';
    assert Run(p, 2, '_') == |u|;
    assert p[2..2 + |u|] == u;
    assert MatchAt(p, UnderlineRule, 0) == Some((|p|, Underlined(u)));
    assert Rewrite(p, UnderlineRule, |p|) == "";
  }

  /** `[text](url)` is one link match, spanning the whole text. */
  lemma LinkMatch(t: string, u: string)
    requires t != [] && ']' !in t
    requires u != [] && ')' !in u
    ensures MatchAt("[" + t + "](" + u + ")", LinkRule, 0) == Some((|t| + |u| + 4, BioLink(t, u)))
  {
    var p := "[" + t + "](" + u + ")";
    LinkRuns(t, u);
    var te: nat := 1 + |t|;
    var ue: nat := 3 + |t| + |u|;
    LinkAtRuns(p, 0, te, ue);
    assert MatchAt(p, LinkRule, 0) == LinkAt(p, 0);
  }

  /** In `[t](u)` the text run stops at the `]` after `t`, the URL run at the `)` after `u`. */
  lemma LinkRuns(t: string, u: string)
    requires ']' !in t && ')' !in u
    ensures var p := "[" + t + "](" + u + ")";
            |p| == |t| + |u| + 4 && p[0] == '[' && p[2 + |t|] == '(' &&
            Run(p, 1, ']') == |t| && Run(p, 3 + |t|, ')') == |u| &&
            p[1..1 + |t|] == t && p[3 + |t|..3 + |t| + |u|] == u
  {
    var p := "[" + t + "](" + u + ")";
    assert forall j :: 1 <= j < 1 + |t| ==> p[j] == t[j - 1] && t[j - 1] in t;
    assert p[1 + |t|] == ']';
    assert forall j :: 3 + |t| <= j < 3 + |t| + |u| ==> p[j] == u[j - 3 - |t|] && u[j - 3 - |t|] in u;
    assert p[3 + |t| + |u|] == ')';
    assert p[1..1 + |t|] == t;
    assert p[3 + |t|..3 + |t| + |u|] == u;
  }

  /** The link rule matches at `i` once the two runs it scans, ending at `te` and `ue`, are non-empty and closed. */
  lemma LinkAtRuns(s: string, i: nat, te: nat, ue: nat)
    requires i < |s| && s[i] == '['
    requires te == i + 1 + Run(s, i + 1, ']') && te > i + 1 && te + 1 < |s| && s[te + 1] == '('
    requires ue == te + 2 + Run(s, te + 2, ')') && ue > te + 2 && ue < |s|
    ensures LinkAt(s, i) == Some((ue + 1, BioLink(s[i + 1..te], s[te + 2..ue])))
  {
  }

  /** The fixed parts of the anchor hold no `*`, and only the target holds a `_`, alone. */
  lemma LinkPartsPlain()
    ensures '*' !in LinkOpen && '*' !in LinkTarget && '*' !in LinkRel && '*' !in LinkClose
    ensures '_' !in LinkOpen && '_' !in LinkRel && '_' !in LinkClose && NoPair(LinkTarget, '_')
  {
    assert forall j :: 0 <= j < |LinkOpen| ==> LinkOpen[j] != '*' && LinkOpen[j] != '_';
    assert forall j :: 0 <= j < |LinkRel| ==> LinkRel[j] != '*' && LinkRel[j] != '_';
    assert forall j :: 0 <= j < |LinkClose| ==> LinkClose[j] != '*' && LinkClose[j] != '_';
    assert forall j :: 0 <= j < |LinkTarget| ==> LinkTarget[j] != '*' && (LinkTarget[j] == '_' <==> j == 10);
  }

  /** The anchor of plain text and URL holds no `*`, and its one `_` (in `_blank`) stands alone. */
  lemma BioLinkPlain(t: string, u: string)
    requires Plain(t) && Plain(u)
    ensures '*' !in BioLink(t, u) && NoPair(BioLink(t, u), '_')
  {
    LinkPartsPlain();
    AbsentNoPair(LinkOpen, '_');
    AbsentNoPair(u, '_');
    AbsentNoPair(t, '_');
    AbsentNoPair(LinkRel, '_');
    AbsentNoPair(LinkClose, '_');
    NoPairJoin(LinkOpen, u, '_');
    NoPairJoin(LinkOpen + u, LinkTarget, '_');
    NoPairJoin(LinkOpen + u + LinkTarget, LinkRel, '_');
    NoPairJoin(LinkOpen + u + LinkTarget + LinkRel, t, '_');
    NoPairJoin(LinkOpen + u + LinkTarget + LinkRel + t, LinkClose, '_');
  }

  /**
   * A paragraph that is one `[text](url)` link, text and URL plain and
   * without the closing `]` and `)`, becomes one bio-link anchor.
   */
  lemma FormatLink(t: string, u: string)
    requires t != [] && Plain(t) && ']' !in t
    requires u != [] && Plain(u) && ')' !in u
    ensures FormatParagraph("[" + t + "](" + u + ")") == BioLink(t, u)
  {
    var p := "[" + t + "](" + u + ")";
    var q := BioLink(t, u);
    LinkMatch(t, u);
    assert Rewrite(p, LinkRule, |p|) == "";
    assert Rewrite(p, LinkRule, 0) == q;
    BioLinkPlain(t, u);
    RewritePlain(q, BoldRule, 0);
    RewritePlain(q, ItalicRule, 0);
    RewriteNoPair(q, UnderlineRule, 0);
    assert q[0..] == q;
  }

  /** The paragraph shown when there is no biography. */
  const ComingSoon: string := "Biography information coming soon."

  /**
   * `processBioText(bio)`: the "coming soon" paragraph for an empty bio;
   * otherwise exactly one formatted paragraph per element, in order.
   */
  function ProcessBioText(bio: seq<string>): (r: seq<string>)
    ensures bio == [] ==> r == [ComingSoon]
    ensures bio != [] ==> |r| == |bio| && forall k :: 0 <= k < |bio| ==> r[k] == FormatParagraph(bio[k])
  {
    if bio == [] then [ComingSoon]
    else seq(|bio|, k requires 0 <= k < |bio| => FormatParagraph(bio[k]))
  }

  // --------------------------------------------------------------- search

  /** `[display, url]` for each link. */
  function LinkFields(ls: seq<Link>): (r: seq<string>)
    ensures |r| == 2 * |ls|
    ensures forall k :: 0 <= k < |ls| ==> r[2 * k] == ls[k].display && r[2 * k + 1] == ls[k].url
  {
    if ls == [] then [] else [ls[0].display, ls[0].url] + LinkFields(ls[1..])
  }

  /** Each organisation's name followed by its links' fields. */
  function OrgsFields(os: seq<Org>): seq<string> {
    if os == [] then [] else [os[0].name] + LinkFields(os[0].links) + OrgsFields(os[1..])
  }

  /** Everything `speakerMatches` gathers for one speaker, in its order. */
  function Fields(s: Speaker): seq<string> {
    [s.name, s.title] + s.bio + LinkFields(s.social.personal) +
    (if s.social.organization.Some?
     then LinkFields(s.social.organization.value.links) + [s.social.organization.value.name]
     else []) +
    OrgsFields(s.social.organizations)
  }

  /** The organisations' names and link texts are all searched. */
  lemma {:induction false} OrgsFieldsCover(os: seq<Org>, k: nat)
    requires k < |os|
    ensures os[k].name in OrgsFields(os)
    ensures forall l :: l in os[k].links ==> l.display in OrgsFields(os) && l.url in OrgsFields(os)
  {
    LinkFieldsCover(os[0].links);
    if k > 0 {
      OrgsFieldsCover(os[1..], k - 1);
    }
  }

  lemma LinkFieldsCover(ls: seq<Link>)
    ensures forall l :: l in ls ==> l.display in LinkFields(ls) && l.url in LinkFields(ls)
  {
    forall l | l in ls ensures l.display in LinkFields(ls) && l.url in LinkFields(ls) {
      var k :| 0 <= k < |ls| && ls[k] == l;
      assert LinkFields(ls)[2 * k] == l.display;
    }
  }

  /**
   * The fields searched are the name, the title, every bio paragraph, the
   * display text and URL of every personal and organisation link, and
   * every organisation's name.
   */
  lemma FieldsCover(s: Speaker)
    ensures s.name in Fields(s) && s.title in Fields(s)
    ensures forall p :: p in s.bio ==> p in Fields(s)
    ensures forall l :: l in s.social.personal ==> l.display in Fields(s) && l.url in Fields(s)
    ensures s.social.organization.Some? ==>
              s.social.organization.value.name in Fields(s) &&
              forall l :: l in s.social.organization.value.links ==> l.display in Fields(s) && l.url in Fields(s)
    ensures forall k :: 0 <= k < |s.social.organizations| ==> s.social.organizations[k].name in Fields(s)
  {
    LinkFieldsCover(s.social.personal);
    if s.social.organization.Some? {
      LinkFieldsCover(s.social.organization.value.links);
    }
    forall k | 0 <= k < |s.social.organizations| ensures s.social.organizations[k].name in Fields(s) {
      OrgsFieldsCover(s.social.organizations, k);
    }
  }

  /** Some gathered field contains the term, ignoring case. */
  predicate AnyFieldIncludes(fields: seq<string>, term: string) {
    exists f :: f in fields && Includes(Lower(f), Lower(term))
  }

  /**
   * `speakerMatches(card, searchTerm, speakersData)`: the empty term shows
   * every card; a card without an id, data not loaded, or an unknown id
   * shows nothing; otherwise the card shows iff one of its speaker's
   * fields contains the term, ignoring case.
   */
  function SpeakerMatches(id: string, term: string, data: Option<seq<Speaker>>): (r: bool)
    ensures term == "" ==> r
    ensures term != "" && (id == "" || FindSpeakerById(data, id).None?) ==> !r
    ensures term != "" && id != "" && FindSpeakerById(data, id).Some? ==>
              (r <==> AnyFieldIncludes(Fields(FindSpeakerById(data, id).value), term))
  {
    if term == "" then true
    else if id == "" || data.None? then false
    else match FindSpeakerById(data, id)
      case None => false
      case Some(s) => AnyFieldIncludes(Fields(s), term)
  }

  /** Typing more of a word never brings back a card the shorter text hid. */
  lemma SearchNarrows(id: string, shorter: string, longer: string, data: Option<seq<Speaker>>)
    requires Includes(Lower(longer), Lower(shorter))
    ensures SpeakerMatches(id, longer, data) ==> SpeakerMatches(id, shorter, data)
  {
    if shorter != "" && SpeakerMatches(id, longer, data) {
      var s := FindSpeakerById(data, id).value;
      var f :| f in Fields(s) && Includes(Lower(f), Lower(longer));
      IncludesTrans(Lower(f), Lower(longer), Lower(shorter));
    }
  }

  /** A speaker's name finds their card. */
  lemma NameFindsSpeaker(id: string, term: string, data: Option<seq<Speaker>>)
    requires id != "" && FindSpeakerById(data, id).Some?
    requires Includes(Lower(FindSpeakerById(data, id).value.name), Lower(term))
    ensures SpeakerMatches(id, term, data)
  {
    FieldsCover(FindSpeakerById(data, id).value);
  }

  /** One `forEach` of `filterSpeakers`: which of the cards stay shown, and whether any does. */
  method ShowMatching(ids: seq<string>, term: string, data: Option<seq<Speaker>>)
    returns (shown: seq<bool>, anyVisible: bool)
    ensures |shown| == |ids|
    ensures forall k :: 0 <= k < |ids| ==> shown[k] == SpeakerMatches(ids[k], term, data)
    ensures anyVisible <==> true in shown
  {
    anyVisible := false;
    shown := [];
    for k := 0 to |ids|
      invariant |shown| == k
      invariant forall j :: 0 <= j < k ==> shown[j] == SpeakerMatches(ids[j], term, data)
      invariant anyVisible <==> true in shown
    {
      var matches := SpeakerMatches(ids[k], term, data);
      if matches {
        anyVisible := true;
      }
      assert true in shown + [matches] <==> true in shown || matches;
      shown := shown + [matches];
    }
  }

  /**
   * `filterSpeakers(searchTerm)` over the desktop and the mobile cards (by
   * their `data-speaker-id`): which cards stay shown, and whether the
   * "no results" line is shown.
   */
  method FilterSpeakers(desktop: seq<string>, mobile: seq<string>, term: string, data: Option<seq<Speaker>>)
    returns (desktopShown: seq<bool>, mobileShown: seq<bool>, noResults: bool)
    ensures |desktopShown| == |desktop| && |mobileShown| == |mobile|
    ensures forall k :: 0 <= k < |desktop| ==> desktopShown[k] == SpeakerMatches(desktop[k], term, data)
    ensures forall k :: 0 <= k < |mobile| ==> mobileShown[k] == SpeakerMatches(mobile[k], term, data)
    ensures noResults <==> true !in desktopShown && true !in mobileShown
    ensures term == "" ==> (noResults <==> desktop == [] && mobile == [])
  {
    var anyDesktop, anyMobile;
    desktopShown, anyDesktop := ShowMatching(desktop, term, data);
    mobileShown, anyMobile := ShowMatching(mobile, term, data);
    noResults := !(anyDesktop || anyMobile);
    if term == "" {
      assert desktop != [] ==> desktopShown[0];
      assert mobile != [] ==> mobileShown[0];
    }
  }
}
