/**
 * notice-coalition/notice-home/js/utils.js: today's date as text, the
 * 30-day recency test, the cookie helpers, the per-day popup counter kept
 * in two cookies, and the YouTube/Vimeo id extractor.
 *
 * The clock is the parameter `today` (a calendar date) or `now` (epoch
 * milliseconds); `document.cookie` is the cookie jar of `CookieJar`.
 */
module NoticeUtils {
  import opened Wrappers
  import opened Strings

  // ---------------------------------------------------------------- dates

  /** A calendar date as `Date` reports it: `getMonth()` counts from 0. */
  datatype Date = Date(year: nat, month: nat, day: nat)

  /**
   * `getTodayString()`: year, 1-based month and day joined by '-', unpadded.
   * The text holds no ';' and no '=', so it can be stored as a cookie value.
   */
  function TodayString(d: Date): (r: string)
    ensures ';' !in r && '=' !in r
  {
    NatToStringHasNo(d.year, ';');
    NatToStringHasNo(d.month + 1, ';');
    NatToStringHasNo(d.day, ';');
    NatToStringHasNo(d.year, '=');
    NatToStringHasNo(d.month + 1, '=');
    NatToStringHasNo(d.day, '=');
    NatToString(d.year) + "-" + NatToString(d.month + 1) + "-" + NatToString(d.day)
  }

  /** The text splits back into the three unpadded numbers, the month one higher. */
  lemma TodayStringParts(d: Date)
    ensures SplitOn(TodayString(d), "-") ==
            [NatToString(d.year), NatToString(d.month + 1), NatToString(d.day)]
  {
    var parts := [NatToString(d.year), NatToString(d.month + 1), NatToString(d.day)];
    NatToStringHasNo(d.year, '-');
    NatToStringHasNo(d.month + 1, '-');
    NatToStringHasNo(d.day, '-');
    assert Join(parts[1..], "-") == NatToString(d.month + 1) + "-" + NatToString(d.day) by {
      assert parts[1..][1..] == [NatToString(d.day)];
    }
    assert Join(parts, "-") == TodayString(d);
    SplitJoin(parts, '-');
  }

  /** Different dates give different strings, so a new day always resets the counter. */
  lemma TodayStringInjective(d1: Date, d2: Date)
    requires TodayString(d1) == TodayString(d2)
    ensures d1 == d2
  {
    TodayStringParts(d1);
    TodayStringParts(d2);
    ParseIntOfNatToString(d1.year);
    ParseIntOfNatToString(d2.year);
    ParseIntOfNatToString(d1.month + 1);
    ParseIntOfNatToString(d2.month + 1);
    ParseIntOfNatToString(d1.day);
    ParseIntOfNatToString(d2.day);
  }

  // -------------------------------------------------------------- recency

  const DayMs: int := 24 * 60 * 60 * 1000

  /**
   * `isRecent(dateString)` at time `now`: the date is no earlier than 30
   * days before now. An unparsable date (`None`) compares false.
   */
  predicate IsRecent(date: Option<int>, now: int)
    ensures IsRecent(date, now) <==> date.Some? && now - date.value <= 30 * DayMs
  {
    date.Some? && date.value >= now - 30 * DayMs
  }

  /**
   * Recency has one cut-off exactly 30 days back: a later date (a future
   * one included) is recent whenever an earlier one is, the cut-off itself
   * is recent, and a millisecond before it is not.
   */
  lemma RecentCutoff(t: int, later: int, now: int)
    requires t <= later
    ensures IsRecent(Some(t), now) ==> IsRecent(Some(later), now)
    ensures IsRecent(Some(now), now) && IsRecent(Some(now + later - t), now)
    ensures IsRecent(Some(now - 30 * DayMs), now) && !IsRecent(Some(now - 30 * DayMs - 1), now)
  {
  }

  // -------------------------------------------------------------- cookies

  /** One cookie as the browser keeps it. */
  datatype Cookie = Cookie(name: string, value: string)

  /** Names the scripts use: non-empty, no '=', no ';', no leading space. */
  predicate GoodName(n: string) {
    n != "" && n[0] != ' ' && '=' !in n && ';' !in n
  }

  /** A value `setCookie` can store so that it reads back whole. */
  predicate GoodValue(v: string) {
    ';' !in v
  }

  /** The names of the cookies in the jar. */
  function Names(jar: seq<Cookie>): set<string> {
    if jar == [] then {} else {jar[0].name} + Names(jar[1..])
  }

  /** A jar of well-named cookies with distinct names. */
  predicate WellFormed(jar: seq<Cookie>) {
    jar == [] ||
    (GoodName(jar[0].name) && GoodValue(jar[0].value) &&
     jar[0].name !in Names(jar[1..]) && WellFormed(jar[1..]))
  }

  /** `name=value` */
  function Entry(c: Cookie): string {
    c.name + "=" + c.value
  }

  function Entries(jar: seq<Cookie>): (r: seq<string>)
    ensures |r| == |jar|
  {
    if jar == [] then [] else [Entry(jar[0])] + Entries(jar[1..])
  }

  /** `document.cookie`: the entries joined by "; ". */
  function DocumentCookie(jar: seq<Cookie>): string {
    Join(Entries(jar), "; ")
  }

  /** The value stored under `name`, or "" when there is none. */
  function Lookup(jar: seq<Cookie>, name: string): string {
    if jar == [] then ""
    else if jar[0].name == name then jar[0].value
    else Lookup(jar[1..], name)
  }

  /**
   * `setCookie(name, value, days)` as the browser applies it: an existing
   * cookie of that name takes the new value in place, otherwise the cookie
   * is added at the end.
   */
  function SetCookieIn(jar: seq<Cookie>, name: string, value: string): (r: seq<Cookie>)
    ensures |r| == |jar| || |r| == |jar| + 1
  {
    if jar == [] then [Cookie(name, value)]
    else if jar[0].name == name then [Cookie(name, value)] + jar[1..]
    else [jar[0]] + SetCookieIn(jar[1..], name, value)
  }

  /** After setting, the name reads the new value and every other name its old one. */
  lemma {:induction false} SetCookieLookup(jar: seq<Cookie>, name: string, value: string, other: string)
    ensures Lookup(SetCookieIn(jar, name, value), name) == value
    ensures other != name ==> Lookup(SetCookieIn(jar, name, value), other) == Lookup(jar, other)
  {
    if jar != [] && jar[0].name != name {
      SetCookieLookup(jar[1..], name, value, other);
      assert SetCookieIn(jar, name, value)[1..] == SetCookieIn(jar[1..], name, value);
    }
  }

  /** The names after setting are the old names plus `name`. */
  lemma {:induction false} SetCookieNames(jar: seq<Cookie>, name: string, value: string)
    ensures Names(SetCookieIn(jar, name, value)) == Names(jar) + {name}
  {
    var r := SetCookieIn(jar, name, value);
    if jar == [] {
      assert r[1..] == [];
    } else if jar[0].name == name {
      assert r[1..] == jar[1..];
    } else {
      SetCookieNames(jar[1..], name, value);
      assert r[1..] == SetCookieIn(jar[1..], name, value);
    }
  }

  /** Setting a well-named cookie keeps the jar well formed. */
  lemma {:induction false} SetCookieWellFormed(jar: seq<Cookie>, name: string, value: string)
    requires WellFormed(jar) && GoodName(name) && GoodValue(value)
    ensures WellFormed(SetCookieIn(jar, name, value))
  {
    var r := SetCookieIn(jar, name, value);
    if jar == [] {
      assert r[1..] == [];
    } else if jar[0].name == name {
      assert r[1..] == jar[1..];
    } else {
      SetCookieWellFormed(jar[1..], name, value);
      SetCookieNames(jar[1..], name, value);
      assert r[1..] == SetCookieIn(jar[1..], name, value);
    }
  }

  /** `cookie.charAt(0) === ' '` repeatedly stripped. */
  function StripSpaces(s: string): (r: string)
    ensures r == "" || r[0] != ' '
  {
    if |s| > 0 && s[0] == ' ' then StripSpaces(s[1..]) else s
  }

  /** The text after `prefix` of the first piece that starts with it once its spaces are stripped. */
  function FirstWithPrefix(pieces: seq<string>, prefix: string): (r: string)
  {
    if pieces == [] then ""
    else if StartsWith(StripSpaces(pieces[0]), prefix) then StripSpaces(pieces[0])[|prefix|..]
    else FirstWithPrefix(pieces[1..], prefix)
  }

  /** What `getCookie(name)` reads out of the cookie text. */
  function CookieValue(name: string, decoded: string): (r: string)
  {
    FirstWithPrefix(SplitOn(decoded, ";"), name + "=")
  }

  /** When no piece starts with the prefix, nothing is read: `getCookie` returns "". */
  lemma {:induction false} NoPrefixNoValue(pieces: seq<string>, prefix: string)
    requires forall k :: 0 <= k < |pieces| ==> !StartsWith(StripSpaces(pieces[k]), prefix)
    ensures FirstWithPrefix(pieces, prefix) == ""
  {
    if pieces != [] {
      assert forall k :: 0 <= k < |pieces| - 1 ==> pieces[1..][k] == pieces[k + 1];
      NoPrefixNoValue(pieces[1..], prefix);
    }
  }

  /** The first piece that starts with the prefix is the one read, past its prefix. */
  lemma {:induction false} FirstPrefixRead(pieces: seq<string>, prefix: string, i: nat)
    requires i < |pieces| && StartsWith(StripSpaces(pieces[i]), prefix)
    requires forall k :: 0 <= k < i ==> !StartsWith(StripSpaces(pieces[k]), prefix)
    ensures FirstWithPrefix(pieces, prefix) == StripSpaces(pieces[i])[|prefix|..]
  {
    if i > 0 {
      assert forall k :: 0 <= k < |pieces| - 1 ==> pieces[1..][k] == pieces[k + 1];
      FirstPrefixRead(pieces[1..], prefix, i - 1);
    }
  }

  /** Both `a` and `b` end where the first '=' stands. */
  lemma NameFromPrefix(a: string, va: string, b: string)
    requires '=' !in a && '=' !in b
    requires StartsWith(a + "=" + va, b + "=")
    ensures a == b
  {
    var e := a + "=" + va;
    var rest := e[|b| + 1..];
    assert e == b + "=" + rest;
    IndexOfCharAt(a, '=', va);
    IndexOfCharAt(b, '=', rest);
    assert e[..|a|] == a;
    assert e[..|b|] == b;
  }

  /** An entry starts with `name=` exactly when it is that name's cookie. */
  lemma EntryPrefix(c: Cookie, name: string)
    requires GoodName(c.name) && GoodName(name)
    ensures StartsWith(Entry(c), name + "=") <==> c.name == name
    ensures c.name == name ==> Entry(c)[|name + "="|..] == c.value
  {
    var e := Entry(c);
    if StartsWith(e, name + "=") {
      NameFromPrefix(c.name, c.value, name);
    }
    if c.name == name {
      assert e == (name + "=") + c.value;
      assert e[..|name + "="|] == name + "=";
    }
  }

  lemma {:induction false} StripLeadingSpaces(lead: string, e: string)
    requires forall i :: 0 <= i < |lead| ==> lead[i] == ' '
    requires e != "" && e[0] != ' '
    ensures StripSpaces(lead + e) == e
  {
    if lead != "" {
      assert (lead + e)[1..] == lead[1..] + e;
      StripLeadingSpaces(lead[1..], e);
    } else {
      assert lead + e == e;
    }
  }

  lemma EntryPlain(c: Cookie)
    requires GoodName(c.name) && GoodValue(c.value)
    ensures ';' !in Entry(c) && Entry(c) != "" && Entry(c)[0] != ' '
  {
  }

  lemma NoSemicolonAfterSpaces(lead: string, e: string)
    requires forall i :: 0 <= i < |lead| ==> lead[i] == ' '
    requires ';' !in e
    ensures ';' !in lead + e
  {
    forall i | 0 <= i < |lead + e| ensures (lead + e)[i] != ';' {
      if i >= |lead| {
        assert (lead + e)[i] == e[i - |lead|];
        assert e[i - |lead|] in e;
      }
    }
  }

  lemma SplitAtFirstEntry(first: string, rest: string)
    requires ';' !in first
    ensures SplitOn(first + ";" + rest, ";") == [first] + SplitOn(rest, ";")
  {
    var s := first + ";" + rest;
    IndexOfCharAt(first, ';', rest);
    assert s[..|first|] == first;
    assert s[|first| + 1..] == rest;
  }

  lemma FirstWithPrefixCons(p: string, rest: seq<string>, prefix: string)
    ensures FirstWithPrefix([p] + rest, prefix) ==
            if StartsWith(StripSpaces(p), prefix) then StripSpaces(p)[|prefix|..] else FirstWithPrefix(rest, prefix)
  {
    assert ([p] + rest)[0] == p && ([p] + rest)[1..] == rest;
  }

  /** Reading from `lead` + the joined entries finds the named cookie's value. */
  lemma {:induction false} ScanCookies(jar: seq<Cookie>, name: string, lead: string)
    requires WellFormed(jar) && jar != [] && GoodName(name)
    requires forall i :: 0 <= i < |lead| ==> lead[i] == ' '
    ensures FirstWithPrefix(SplitOn(lead + Join(Entries(jar), "; "), ";"), name + "=") == Lookup(jar, name)
  {
    var e := Entry(jar[0]);
    EntryPlain(jar[0]);
    EntryPrefix(jar[0], name);
    StripLeadingSpaces(lead, e);
    NoSemicolonAfterSpaces(lead, e);
    if |jar| == 1 {
      assert Join(Entries(jar), "; ") == e;
      IndexOfCharAbsent(lead + e, ';');
      assert SplitOn(lead + e, ";") == [lead + e];
      assert [lead + e] + [] == [lead + e];
      FirstWithPrefixCons(lead + e, [], name + "=");
    } else {
      var tail := jar[1..];
      var rest := Join(Entries(tail), "; ");
      assert lead + Join(Entries(jar), "; ") == lead + e + ";" + (" " + rest) by {
        assert Entries(jar)[1..] == Entries(tail);
        assert Join(Entries(jar), "; ") == e + "; " + rest;
      }
      SplitAtFirstEntry(lead + e, " " + rest);
      ScanCookies(tail, name, " ");
      FirstWithPrefixCons(lead + e, SplitOn(" " + rest, ";"), name + "=");
    }
  }

  /**
   * `getCookie(name)` on the text the browser shows for a well-formed jar
   * returns exactly the value stored under `name`, or "" without one.
   */
  lemma CookieLookup(jar: seq<Cookie>, name: string)
    requires WellFormed(jar) && GoodName(name)
    ensures CookieValue(name, DocumentCookie(jar)) == Lookup(jar, name)
  {
    if jar == [] {
      IndexOfCharAbsent("", ';');
      assert DocumentCookie(jar) == "";
      assert SplitOn("", ";") == [""];
      assert [""][1..] == [];
      assert StripSpaces("") == "";
      assert FirstWithPrefix([""], name + "=") == "";
    } else {
      ScanCookies(jar, name, "");
      assert "" + Join(Entries(jar), "; ") == DocumentCookie(jar);
    }
  }

  /** `setCookie(n, v)` then `getCookie(n)` returns `v`. */
  lemma SetThenGet(jar: seq<Cookie>, name: string, value: string)
    requires WellFormed(jar) && GoodName(name) && GoodValue(value)
    ensures CookieValue(name, DocumentCookie(SetCookieIn(jar, name, value))) == value
  {
    SetCookieWellFormed(jar, name, value);
    CookieLookup(SetCookieIn(jar, name, value), name);
    SetCookieLookup(jar, name, value, name);
  }

  // --------------------------------------------------------- popup count

  const PopupDate: string := "popupDate"
  const PopupCountName: string := "popupCount"

  lemma PopupNamesGood()
    ensures GoodName(PopupDate) && GoodName(PopupCountName) && PopupDate != PopupCountName
  {
    assert PopupDate[0] == 'p' && PopupCountName[5] == 'C' && PopupDate[5] == 'D';
    assert forall i :: 0 <= i < |PopupDate| ==> PopupDate[i] != '=' && PopupDate[i] != ';';
    assert forall i :: 0 <= i < |PopupCountName| ==> PopupCountName[i] != '=' && PopupCountName[i] != ';';
  }

  /**
   * `getPopupCount()`: the count read (`None` is NaN) and the jar after.
   * A stored date other than today's rewrites both cookies and gives 0;
   * otherwise the stored count is parsed, a missing one being 0.
   */
  function PopupCount(today: Date, jar: seq<Cookie>): (r: (Option<nat>, seq<Cookie>))
    ensures r.1 == jar ||
            (r.0 == Some(0) && Lookup(r.1, PopupDate) == TodayString(today) && Lookup(r.1, PopupCountName) == "0")
    ensures r.0 != Some(0) ==> r.1 == jar
  {
    var t := TodayString(today);
    var stored := CookieValue(PopupDate, DocumentCookie(jar));
    var count := CookieValue(PopupCountName, DocumentCookie(jar));
    if stored != t then
      var j := SetCookieIn(jar, PopupDate, t);
      SetCookieLookup(jar, PopupDate, t, PopupCountName);
      SetCookieLookup(j, PopupCountName, "0", PopupDate);
      (Some(0), SetCookieIn(j, PopupCountName, "0"))
    else (if count == "" then Some(0) else ParseInt(count), jar)
  }

  /** `(count + 1).toString()`, NaN staying NaN. */
  function NextCountText(c: Option<nat>): string {
    if c.Some? then NatToString(c.value + 1) else "NaN"
  }

  /** `incrementPopupCount()`: the jar after it. */
  function IncrementedJar(today: Date, jar: seq<Cookie>): seq<Cookie> {
    var (c, j) := PopupCount(today, jar);
    SetCookieIn(j, PopupCountName, NextCountText(c))
  }

  /** Reading the count again the same day reads the same count and leaves the jar as it is. */
  lemma {:induction false} PopupCountSettles(today: Date, jar: seq<Cookie>)
    requires WellFormed(jar)
    ensures WellFormed(PopupCount(today, jar).1)
    ensures Lookup(PopupCount(today, jar).1, PopupDate) == TodayString(today)
    ensures PopupCount(today, PopupCount(today, jar).1) == PopupCount(today, jar)
  {
    PopupNamesGood();
    var t := TodayString(today);
    CookieLookup(jar, PopupDate);
    var j := PopupCount(today, jar).1;
    if Lookup(jar, PopupDate) != t {
      SetCookieWellFormed(jar, PopupDate, t);
      SetCookieWellFormed(SetCookieIn(jar, PopupDate, t), PopupCountName, "0");
      SetCookieLookup(jar, PopupDate, t, PopupCountName);
      SetCookieLookup(SetCookieIn(jar, PopupDate, t), PopupCountName, "0", PopupDate);
      CookieLookup(j, PopupCountName);
      assert NatToString(0) == "0";
      ParseIntOfNatToString(0);
    }
    CookieLookup(j, PopupDate);
  }

  /**
   * `incrementPopupCount` leaves the count exactly one higher than the
   * `getPopupCount` it calls returned, and the day's date in place.
   */
  lemma IncrementAddsOne(today: Date, jar: seq<Cookie>)
    requires WellFormed(jar) && PopupCount(today, jar).0.Some?
    ensures WellFormed(IncrementedJar(today, jar))
    ensures PopupCount(today, IncrementedJar(today, jar)) ==
            (Some(PopupCount(today, jar).0.value + 1), IncrementedJar(today, jar))
  {
    PopupNamesGood();
    PopupCountSettles(today, jar);
    var n := PopupCount(today, jar).0.value;
    var j := PopupCount(today, jar).1;
    var j2 := IncrementedJar(today, jar);
    NatToStringHasNo(n + 1, ';');
    SetCookieWellFormed(j, PopupCountName, NatToString(n + 1));
    SetCookieLookup(j, PopupCountName, NatToString(n + 1), PopupDate);
    CookieLookup(j2, PopupDate);
    CookieLookup(j2, PopupCountName);
    ParseIntOfNatToString(n + 1);
  }

  /** The browser's cookie jar, which `document.cookie` reads and writes. */
  class CookieJar {
    var cookies: seq<Cookie>

    ghost predicate Valid()
      reads this
    {
      WellFormed(cookies)
    }

    constructor (cookies: seq<Cookie>)
      requires WellFormed(cookies)
      ensures this.cookies == cookies && Valid()
    {
      this.cookies := cookies;
    }

    /** `setCookie(name, value, days)` (the expiry is not modelled). */
    method SetCookie(name: string, value: string)
      requires Valid() && GoodName(name) && GoodValue(value)
      modifies this
      ensures cookies == SetCookieIn(old(cookies), name, value) && Valid()
    {
      SetCookieWellFormed(cookies, name, value);
      cookies := SetCookieIn(cookies, name, value);
    }

    /**
     * `getCookie(name)`: split on ';', strip each piece's leading spaces,
     * return what follows `name=` in the first piece that starts with it.
     */
    method GetCookie(name: string) returns (v: string)
      ensures v == CookieValue(name, DocumentCookie(cookies))
    {
      var cookieName := name + "=";
      var cookieArray := SplitOn(DocumentCookie(cookies), ";");
      for i := 0 to |cookieArray|
        invariant FirstWithPrefix(cookieArray[i..], cookieName) == CookieValue(name, DocumentCookie(cookies))
      {
        var cookie := cookieArray[i];
        while |cookie| > 0 && cookie[0] == ' '
          invariant StripSpaces(cookie) == StripSpaces(cookieArray[i])
        {
          cookie := cookie[1..];
        }
        IndexOfZero(cookie, cookieName);
        if IndexOf(cookie, cookieName) == Some(0) {
          return cookie[|cookieName|..];
        }
        assert cookieArray[i..][1..] == cookieArray[i + 1..];
      }
      return "";
    }

    /** `getPopupCount()` */
    method GetPopupCount(today: Date) returns (count: Option<nat>)
      requires Valid()
      modifies this
      ensures (count, cookies) == PopupCount(today, old(cookies)) && Valid()
    {
      PopupNamesGood();
      var t := TodayString(today);
      var storedDate := GetCookie(PopupDate);
      var c := GetCookie(PopupCountName);
      if storedDate != t {
        SetCookie(PopupDate, t);
        SetCookie(PopupCountName, "0");
        return Some(0);
      }
      count := if c == "" then Some(0) else ParseInt(c);
    }

    /** `incrementPopupCount()` */
    method IncrementPopupCount(today: Date)
      requires Valid()
      modifies this
      ensures cookies == IncrementedJar(today, old(cookies)) && Valid()
    {
      var count := GetPopupCount(today);
      assert GoodValue(NextCountText(count)) by {
        if count.Some? {
          NatToStringHasNo(count.value + 1, ';');
        }
      }
      PopupNamesGood();
      SetCookie(PopupCountName, NextCountText(count));
    }
  }

  // ---------------------------------------------------------- video embeds

  datatype VideoKind = YouTube | Vimeo

  /** What `getVideoEmbed(url)` returns when it recognises the URL. */
  datatype Embed = Embed(kind: VideoKind, id: string, embed: string)

  /** `[^"&?\/\s]` */
  predicate IdChar(c: char) {
    c != '"' && c != '&' && c != '?' && c != '/' && !IsWhite(c)
  }

  /** The URL forms that put a YouTube id right after them. */
  const YouTubeMarkers: seq<string> :=
    ["youtu.be/", "youtube.com/embed/", "youtube.com/v/", "youtube.com/e/", "youtube.com/watch?v="]

  /** Eleven id characters right after the first marker that occurs at `i`. */
  function YouTubeAt(url: string, i: nat, k: nat): (r: Option<string>)
    requires k <= |YouTubeMarkers|
    ensures r.Some? ==> |r.value| == 11 && forall j :: 0 <= j < 11 ==> IdChar(r.value[j])
    decreases |YouTubeMarkers| - k
  {
    if k == |YouTubeMarkers| then None
    else
      var m := YouTubeMarkers[k];
      var s := i + |m|;
      if OccursAt(url, m, i) && s + 11 <= |url| && forall j :: s <= j < s + 11 ==> IdChar(url[j]) then
        Some(url[s..s + 11])
      else YouTubeAt(url, i, k + 1)
  }

  /** The leftmost YouTube id from position `i` on. */
  function YouTubeFrom(url: string, i: nat): (r: Option<string>)
    ensures r.Some? ==> |r.value| == 11 && forall j :: 0 <= j < 11 ==> IdChar(r.value[j])
    decreases |url| - i
  {
    if i >= |url| then None
    else if YouTubeAt(url, i, 0).Some? then YouTubeAt(url, i, 0)
    else YouTubeFrom(url, i + 1)
  }

  /** The maximal run of digits from `k` on. */
  function DigitRun(s: string, k: nat): (n: nat)
    requires k <= |s|
    ensures k + n <= |s| && (forall j :: k <= j < k + n ==> IsDigit(s[j]))
    ensures k + n == |s| || !IsDigit(s[k + n])
    decreases |s| - k
  {
    if k < |s| && IsDigit(s[k]) then 1 + DigitRun(s, k + 1) else 0
  }

  /** The leftmost `vimeo.com/` followed by at least one digit, and all those digits. */
  function VimeoFrom(url: string, i: nat): (r: Option<string>)
    ensures r.Some? ==> r.value != "" && AllDigits(r.value)
    decreases |url| - i
  {
    if i >= |url| then None
    else
      var s := i + |"vimeo.com/"|;
      if OccursAt(url, "vimeo.com/", i) && DigitRun(url, s) > 0 then
        var d := url[s..s + DigitRun(url, s)];
        assert forall j :: 0 <= j < |d| ==> d[j] == url[s + j];
        Some(d)
      else VimeoFrom(url, i + 1)
  }

  function YouTubeEmbed(id: string, origin: string): string {
    "https://www.youtube.com/embed/" + id + "?origin=" + origin +
    "&iv_load_policy=3&modestbranding=1&playsinline=1&showinfo=0&rel=0&enablejsapi=1"
  }

  function VimeoEmbed(id: string): string {
    "https://player.vimeo.com/video/" + id +
    "?loop=false&byline=false&portrait=false&title=false&speed=true&transparent=0&gesture=media"
  }

  /**
   * `getVideoEmbed(url)`: a YouTube id (eleven id characters) wins over a
   * Vimeo id (one or more digits); neither gives `null`.
   */
  function GetVideoEmbed(url: string, origin: string): (r: Option<Embed>)
    ensures r.None? <==> YouTubeFrom(url, 0).None? && VimeoFrom(url, 0).None?
    ensures r.Some? && r.value.kind == YouTube ==>
              |r.value.id| == 11 && r.value.embed == YouTubeEmbed(r.value.id, origin)
    ensures r.Some? && r.value.kind == Vimeo ==>
              YouTubeFrom(url, 0).None? && r.value.id != "" && AllDigits(r.value.id) &&
              r.value.embed == VimeoEmbed(r.value.id)
  {
    match YouTubeFrom(url, 0)
    case Some(id) => Some(Embed(YouTube, id, YouTubeEmbed(id, origin)))
    case None =>
      match VimeoFrom(url, 0)
      case Some(id) => Some(Embed(Vimeo, id, VimeoEmbed(id)))
      case None => None
  }

  /** Every YouTube marker begins with 'y'; every Vimeo match with 'v'. */
  lemma NoYouTubeWithoutY(url: string, i: nat, k: nat)
    requires i < |url| && url[i] != 'y' && k <= |YouTubeMarkers|
    ensures YouTubeAt(url, i, k).None?
    decreases |YouTubeMarkers| - k
  {
    if k < |YouTubeMarkers| {
      var m := YouTubeMarkers[k];
      assert m[0] == 'y';
      NoYouTubeWithoutY(url, i, k + 1);
    }
  }

  /** Positions holding no marker are passed over. */
  lemma {:induction false} YouTubeSkip(url: string, a: nat, b: nat)
    requires a <= b <= |url|
    requires forall i :: a <= i < b ==> YouTubeAt(url, i, 0).None?
    ensures YouTubeFrom(url, a) == YouTubeFrom(url, b)
    decreases b - a
  {
    if a < b {
      YouTubeSkip(url, a + 1, b);
    }
  }

  lemma {:induction false} VimeoSkip(url: string, a: nat, b: nat)
    requires a <= b <= |url|
    requires forall i :: a <= i < b ==> !OccursAt(url, "vimeo.com/", i)
    ensures VimeoFrom(url, a) == VimeoFrom(url, b)
    decreases b - a
  {
    if a < b {
      VimeoSkip(url, a + 1, b);
    }
  }

  /** A URL without the letter 'y' holds no YouTube id. */
  lemma {:induction false} NoYouTubeFrom(url: string, i: nat)
    requires 'y' !in url
    ensures YouTubeFrom(url, i).None?
    decreases |url| - i
  {
    if i < |url| {
      assert url[i] in url;
      NoYouTubeWithoutY(url, i, 0);
      NoYouTubeFrom(url, i + 1);
    }
  }

  /** A share link `https://youtu.be/<id>` yields that id. */
  lemma ShortLink(id: string, origin: string)
    requires |id| == 11 && forall j :: 0 <= j < 11 ==> IdChar(id[j])
    ensures GetVideoEmbed("https://youtu.be/" + id, origin) == Some(Embed(YouTube, id, YouTubeEmbed(id, origin)))
  {
    var url := "https://youtu.be/" + id;
    forall i | 0 <= i < 8 ensures YouTubeAt(url, i, 0).None? {
      NoYouTubeWithoutY(url, i, 0);
    }
    assert url[8..8 + |"youtu.be/"|] == "youtu.be/";
    assert OccursAt(url, YouTubeMarkers[0], 8);
    assert url[17..28] == id;
    assert YouTubeAt(url, 8, 0) == Some(id);
    assert YouTubeFrom(url, 8) == Some(id);
    YouTubeSkip(url, 0, 8);
  }

  /** The digits after `https://vimeo.com/` are found at position 8. */
  lemma VimeoAtHost(digits: string)
    requires digits != "" && AllDigits(digits)
    ensures VimeoFrom("https://vimeo.com/" + digits, 8) == Some(digits)
  {
    var url := "https://vimeo.com/" + digits;
    assert url[8..18] == "vimeo.com/";
    assert DigitRun(url, 18) == |digits| by {
      assert forall j :: 18 <= j < |url| ==> url[j] == digits[j - 18];
    }
    assert url[18..18 + |digits|] == digits;
    assert OccursAt(url, "vimeo.com/", 8);
  }

  lemma NoYInVimeo(digits: string)
    requires AllDigits(digits)
    ensures 'y' !in "https://vimeo.com/" + digits
  {
    var url := "https://vimeo.com/" + digits;
    forall j | 0 <= j < |url| ensures url[j] != 'y' {
      if j >= 18 {
        assert url[j] == digits[j - 18];
      }
    }
  }

  /** A Vimeo page `https://vimeo.com/<digits>` yields its digits. */
  lemma VimeoLink(digits: string, origin: string)
    requires digits != "" && AllDigits(digits)
    ensures GetVideoEmbed("https://vimeo.com/" + digits, origin) == Some(Embed(Vimeo, digits, VimeoEmbed(digits)))
  {
    var url := "https://vimeo.com/" + digits;
    NoYInVimeo(digits);
    NoYouTubeFrom(url, 0);
    forall i | 0 <= i < 8 ensures !OccursAt(url, "vimeo.com/", i) {
      assert url[i] != 'v' && "vimeo.com/"[0] == 'v';
    }
    VimeoAtHost(digits);
    VimeoSkip(url, 0, 8);
  }
}
