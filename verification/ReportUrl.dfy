/**
 * The bug-report link. A report too long for the link is cut at a character, before percent-encoding
 * (section 2.1 of RFC 3986), by a binary search for the longest prefix that still fits.
 */
module ReportUrl {
  import opened Wrappers
  import opened Bytes
  import opened Utf8

  const GITHUB_ISSUE_URL_LIMIT: nat := 8100

  const TRUNCATION_NOTE := "\n\n<!-- Report truncated due to URL length limit. Please add remaining details manually. -->"

  const ISSUE_PAGE := "https://github.com" + "/Harry-kp/vortix" + "/issues/new"

  const BASE_PREFIX :=
    ISSUE_PAGE + "?labels=bug&title=" + UrlEncode("[Bug] ") + "&body="

  // ---------------------------------------------------------------------- percent-encoding

  predicate IsUnreserved(b: Byte) {
    'A' as int <= b <= 'Z' as int || 'a' as int <= b <= 'z' as int || '0' as int <= b <= '9' as int ||
    b == '-' as int || b == '.' as int || b == '_' as int || b == '~' as int
  }

  function HexDigit(n: nat): char
    requires n < 16
  {
    if n < 10 then '0' + n as char else 'A' + (n - 10) as char
  }

  function EncodeByte(b: Byte): (r: string)
    ensures |r| >= 1
  {
    if IsUnreserved(b) then [b as char] else ['%', HexDigit(b / 16), HexDigit(b % 16)]
  }

  function PercentEncode(bytes: seq<Byte>): string {
    if bytes == [] then "" else EncodeByte(bytes[0]) + PercentEncode(bytes[1..])
  }

  function UrlEncode(text: string): string {
    PercentEncode(Encode(text))
  }

  function HexValue(c: char): (r: Option<nat>)
    ensures r.Some? ==> r.value < 16
  {
    if '0' <= c <= '9' then Some((c - '0') as nat)
    else if 'A' <= c <= 'F' then Some((c - 'A') as nat + 10)
    else None
  }

  /** What a reader makes of an encoded text: an escape is its byte, any other ASCII character itself. */
  function PercentDecode(s: string): Option<seq<Byte>> {
    if s == "" then Some([])
    else if s[0] == '%' then
      if |s| >= 3 && HexValue(s[1]).Some? && HexValue(s[2]).Some? then
        match PercentDecode(s[3..])
        case Some(rest) => Some([16 * HexValue(s[1]).value + HexValue(s[2]).value] + rest)
        case None => None
      else None
    else if s[0] as int < 0x80 then
      match PercentDecode(s[1..])
      case Some(rest) => Some([s[0] as int] + rest)
      case None => None
    else None
  }

  lemma HexRoundTrip(n: nat)
    requires n < 16
    ensures HexValue(HexDigit(n)) == Some(n)
  {
  }

  lemma DecodeFirst(b: Byte, rest: string)
    requires PercentDecode(rest).Some?
    ensures PercentDecode(EncodeByte(b) + rest) == Some([b] + PercentDecode(rest).value)
  {
    var s := EncodeByte(b) + rest;
    if IsUnreserved(b) {
      assert s[1..] == rest && s[0] != '%';
    } else {
      HexRoundTrip(b / 16);
      HexRoundTrip(b % 16);
      assert s[3..] == rest && s[1] == HexDigit(b / 16) && s[2] == HexDigit(b % 16);
    }
  }

  /** Reading an encoded text gives back its bytes: no escape is ever split. */
  lemma {:induction false} DecodeEncoded(bytes: seq<Byte>)
    ensures PercentDecode(PercentEncode(bytes)) == Some(bytes)
  {
    if bytes != [] {
      DecodeEncoded(bytes[1..]);
      DecodeFirst(bytes[0], PercentEncode(bytes[1..]));
      assert [bytes[0]] + bytes[1..] == bytes;
    }
  }

  // ---------------------------------------------------------------------- what may stand in an encoded text

  /** The unreserved characters of section 2.3 of RFC 3986. */
  predicate Unreserved(c: char) {
    ('A' <= c <= 'Z') || ('a' <= c <= 'z') || ('0' <= c <= '9') || c in {'-', '.', '_', '~'}
  }

  predicate UpperHex(c: char) {
    ('0' <= c <= '9') || ('A' <= c <= 'F')
  }

  /** One unreserved character or one escape after the other. */
  predicate IsEncoded(s: string) {
    || s == ""
    || (Unreserved(s[0]) && IsEncoded(s[1..]))
    || (|s| >= 3 && s[0] == '%' && UpperHex(s[1]) && UpperHex(s[2]) && IsEncoded(s[3..]))
  }

  /** A byte of the unreserved set stands for itself; every other byte takes an escape. */
  lemma EncodedByte(b: Byte)
    ensures if (65 <= b <= 90) || (97 <= b <= 122) || (48 <= b <= 57) || b == 45 || b == 46 || b == 95 || b == 126
            then PercentEncode([b]) == [b as char] && Unreserved(b as char)
            else |PercentEncode([b])| == 3 && PercentEncode([b])[0] == '%' && IsEncoded(PercentEncode([b]))
  {
    assert PercentEncode([b]) == EncodeByte(b) + PercentEncode([]) == EncodeByte(b);
    var r := EncodeByte(b);
    assert |r| == 3 ==> r[3..] == "";
  }

  lemma {:induction false} EncodedAlphabet(bytes: seq<Byte>)
    ensures IsEncoded(PercentEncode(bytes))
    ensures forall c :: c in PercentEncode(bytes) ==> Unreserved(c) || c == '%'
  {
    if bytes != [] {
      var first, rest := EncodeByte(bytes[0]), PercentEncode(bytes[1..]);
      EncodedAlphabet(bytes[1..]);
      HexDigits(bytes[0]);
      assert (first + rest)[|first|..] == rest;
      assert forall c :: c in first ==> Unreserved(c) || c == '%';
    }
  }

  lemma HexDigits(b: Byte)
    ensures UpperHex(HexDigit(b / 16)) && UpperHex(HexDigit(b % 16))
  {
  }

  // ---------------------------------------------------------------------- reading the link

  /** What comes before the first `c`; all of it if there is none. */
  function UpTo(s: string, c: char): string {
    if s == "" || s[0] == c then "" else [s[0]] + UpTo(s[1..], c)
  }

  /** What comes after the first `c`; nothing if there is none. */
  function Past(s: string, c: char): string {
    if s == "" then "" else if s[0] == c then s[1..] else Past(s[1..], c)
  }

  lemma {:induction false} PastShrinks(s: string, c: char)
    ensures s != "" ==> |Past(s, c)| < |s|
  {
    if s != "" && s[0] != c {
      PastShrinks(s[1..], c);
    }
  }

  /** The value of a parameter in a query cut at `&` and `=`. */
  function Parameter(query: string, key: string): Option<string>
    decreases |query|
  {
    if query == "" then None
    else
      var first := UpTo(query, '&');
      if UpTo(first, '=') == key then Some(Past(first, '='))
      else
        PastShrinks(query, '&');
        Parameter(Past(query, '&'), key)
  }

  /** The `body` parameter of a link: the fragment goes at `#`, the query begins at `?`. */
  function BodyOf(url: string): Option<string> {
    Parameter(Past(UpTo(url, '#'), '?'), "body")
  }

  lemma {:induction false} CutAt(a: string, c: char, b: string)
    requires c !in a
    ensures UpTo(a + [c] + b, c) == a && Past(a + [c] + b, c) == b
  {
    if a != "" {
      assert (a + [c] + b)[1..] == a[1..] + [c] + b;
      CutAt(a[1..], c, b);
    } else {
      assert (a + [c] + b)[1..] == b;
    }
  }

  lemma {:induction false} NothingToCut(s: string, c: char)
    requires c !in s
    ensures UpTo(s, c) == s
  {
    if s != "" {
      NothingToCut(s[1..], c);
    }
  }

  lemma ParameterHere(key: string, value: string)
    requires '=' !in key && '&' !in key && '&' !in value
    ensures Parameter(key + "=" + value, key) == Some(value)
  {
    NothingToCut(key + "=" + value, '&');
    CutAt(key, '=', value);
  }

  lemma ParameterLater(first: string, value: string, rest: string, key: string)
    requires '=' !in first && '&' !in first && '&' !in value && first != key
    ensures Parameter(first + "=" + value + "&" + rest, key) == Parameter(rest, key)
  {
    CutAt(first + "=" + value, '&', rest);
    CutAt(first, '=', value);
  }

  /** The query of the link, parameter by parameter. */
  function Query(title: string, tail: string): string {
    "labels" + "=" + "bug" + "&" + ("title" + "=" + title + "&" + ("body" + "=" + tail))
  }

  lemma LinkParts(title: string, tail: string)
    ensures ISSUE_PAGE + "?labels=bug&title=" + title + "&body=" + tail == ISSUE_PAGE + "?" + Query(title, tail)
  {
    assert "?labels=bug&title=" == "?" + ("labels" + "=" + "bug" + "&" + ("title" + "="));
    assert "&body=" == "&" + ("body" + "=");
    Regroup(ISSUE_PAGE, "?", "labels" + "=" + "bug" + "&", "title" + "=", title, "&", "body" + "=", tail);
  }

  lemma Regroup(a: string, b: string, c: string, d: string, e: string, f: string, g: string, h: string)
    ensures a + (b + (c + d)) + e + (f + g) + h == a + b + (c + (d + e + f + (g + h)))
  {
  }

  lemma QueryHasBody(title: string, tail: string)
    requires '&' !in title && '&' !in tail
    ensures Parameter(Query(title, tail), "body") == Some(tail)
  {
    hide Parameter;
    var body := "body" + "=" + tail;
    ParameterLater("labels", "bug", "title" + "=" + title + "&" + body, "body");
    ParameterLater("title", title, body, "body");
    ParameterHere("body", tail);
  }

  lemma NoFragment(title: string, tail: string)
    requires '#' !in title && '#' !in tail
    ensures '?' !in ISSUE_PAGE && '#' !in ISSUE_PAGE + "?" + Query(title, tail)
  {
    PageIsPlain();
    hide ISSUE_PAGE;
    assert '#' !in "?" && '#' !in "labels" && '#' !in "=" && '#' !in "bug" && '#' !in "&" && '#' !in "title" && '#' !in "body";
  }

  lemma PageIsPlain()
    ensures '#' !in ISSUE_PAGE && '?' !in ISSUE_PAGE
  {
    var a, b, d := "https://github.com", "/Harry-kp/vortix", "/issues/new";
    assert forall i :: 0 <= i < |a| ==> a[i] != '#' && a[i] != '?';
    assert forall i :: 0 <= i < |b| ==> b[i] != '#' && b[i] != '?';
    assert forall i :: 0 <= i < |d| ==> d[i] != '#' && d[i] != '?';
  }

  /** Whatever encoded text follows the base prefix, the whole of it is the link's `body`. */
  lemma BodyIsWhole(tail: string)
    requires forall c :: c in tail ==> Unreserved(c) || c == '%'
    ensures BodyOf(BASE_PREFIX + tail) == Some(tail)
  {
    hide UrlEncode, Query, Parameter;
    var title := TitleText();
    LinkParts(title, tail);
    NoFragment(title, tail);
    NothingToCut(ISSUE_PAGE + "?" + Query(title, tail), '#');
    CutAt(ISSUE_PAGE, '?', Query(title, tail));
    QueryHasBody(title, tail);
  }

  lemma TitleText() returns (title: string)
    ensures title == UrlEncode("[Bug] ") && '&' !in title && '#' !in title
  {
    hide Encode, PercentEncode;
    title := UrlEncode("[Bug] ");
    EncodedAlphabet(Encode("[Bug] "));
  }

  lemma {:induction false} PercentEncodeAppend(a: seq<Byte>, b: seq<Byte>)
    ensures PercentEncode(a + b) == PercentEncode(a) + PercentEncode(b)
  {
    if a == [] {
      assert a + b == b;
    } else {
      PercentEncodeAppend(a[1..], b);
      assert (a + b)[0] == a[0] && (a + b)[1..] == a[1..] + b;
      Reassociate(EncodeByte(a[0]), PercentEncode(a[1..]), PercentEncode(b));
    }
  }

  lemma Reassociate(a: string, b: string, c: string)
    ensures a + (b + c) == a + b + c
  {
  }

  lemma {:induction false} PercentEncodeBound(bytes: seq<Byte>)
    ensures |PercentEncode(bytes)| <= 3 * |bytes|
  {
    if bytes != [] {
      PercentEncodeBound(bytes[1..]);
    }
  }

  lemma UrlEncodeAppend(a: string, b: string)
    ensures UrlEncode(a + b) == UrlEncode(a) + UrlEncode(b)
  {
    EncodeAppend(a, b);
    PercentEncodeAppend(Encode(a), Encode(b));
  }

  // ---------------------------------------------------------------------- what fits

  /** The encoded form of the first `k` characters and the note. */
  function Truncated(body: string, note: string, k: nat): string
    requires k <= |body|
  {
    UrlEncode(body[..k] + note)
  }

  predicate Fits(body: string, note: string, room: nat, k: nat)
    requires k <= |body|
  {
    |Truncated(body, note, k)| <= room
  }

  lemma ShorterFits(body: string, note: string, room: nat, j: nat, k: nat)
    requires j <= k <= |body| && Fits(body, note, room, k)
    ensures Fits(body, note, room, j)
  {
    UrlEncodeAppend(body[..j], note);
    UrlEncodeAppend(body[..k], note);
    assert body[..k] == body[..j] + body[j..k];
    UrlEncodeAppend(body[..j], body[j..k]);
  }

  /** `url` carries the longest prefix of the body that fits with the note, or nothing if none does. */
  ghost predicate LongestThatFits(body: string, basePrefix: string, note: string, room: nat, url: string) {
    (exists k :: 0 <= k <= |body| && Fits(body, note, room, k) && url == basePrefix + Truncated(body, note, k) &&
       forall j :: k < j <= |body| ==> !Fits(body, note, room, j)) ||
    (url == basePrefix && forall j :: 0 <= j <= |body| ==> !Fits(body, note, room, j))
  }

  // ---------------------------------------------------------------------- the program

  method BuildUrl(body: string, basePrefix: string, note: string, limit: nat) returns (url: string)
    ensures |basePrefix| + |UrlEncode(body)| <= limit ==> url == basePrefix + UrlEncode(body)
    ensures |basePrefix| + |UrlEncode(body)| > limit && limit <= |basePrefix| ==> url == basePrefix
    ensures |basePrefix| + |UrlEncode(body)| > limit && limit > |basePrefix| ==>
              LongestThatFits(body, basePrefix, note, limit - |basePrefix|, url)
    ensures |basePrefix| <= limit ==> |url| <= limit
  {
    var fullUrl := basePrefix + UrlEncode(body);
    if |fullUrl| <= limit {
      return fullUrl;
    }
    var room := if limit >= |basePrefix| then limit - |basePrefix| else 0;
    if room == 0 {
      return basePrefix;
    }
    url := SearchPrefix(body, basePrefix, note, room);
  }

  method SearchPrefix(body: string, basePrefix: string, note: string, room: nat) returns (bestUrl: string)
    ensures LongestThatFits(body, basePrefix, note, room, bestUrl)
  {
    var low, high := 0, |body|;
    bestUrl := basePrefix;
    while low <= high
      invariant 0 <= low <= high + 1 <= |body| + 1
      invariant low == 0 ==> bestUrl == basePrefix
      invariant low > 0 ==> Fits(body, note, room, low - 1) && bestUrl == basePrefix + Truncated(body, note, low - 1)
      invariant forall j :: high < j <= |body| ==> !Fits(body, note, room, j)
      decreases high - low
    {
      var mid := (low + high) / 2;
      var candidate := UrlEncode(body[..mid] + note);
      if |candidate| <= room {
        bestUrl := basePrefix + candidate;
        if mid == |body| {
          assert Fits(body, note, room, mid);
          return;
        }
        low := mid + 1;
      } else {
        forall j | mid <= j <= |body| ensures !Fits(body, note, room, j) {
          if Fits(body, note, room, j) {
            ShorterFits(body, note, room, mid, j);
          }
        }
        if mid == 0 {
          return;
        }
        high := mid - 1;
      }
    }
  }

  lemma BasePrefixFits()
    ensures |BASE_PREFIX| < GITHUB_ISSUE_URL_LIMIT
  {
    var title := "[Bug] ";
    EncodeAtMost(title);
    PercentEncodeBound(Encode(title));
  }

  lemma {:induction false} EncodeAtMost(text: string)
    ensures |Encode(text)| <= 4 * |text|
  {
    if text != "" {
      EncodeAtMost(text[1..]);
    }
  }

  /**
   * The link as shipped never exceeds its limit, whatever the report; its `body` parameter is all that
   * follows the prefix, and reads back as the report, as a prefix of it with the note, or as nothing.
   */
  method BuildGithubUrl(body: string) returns (url: string)
    ensures |url| <= 8100 && BASE_PREFIX <= url
    ensures BodyOf(url) == Some(url[|BASE_PREFIX|..])
    ensures PercentDecode(url[|BASE_PREFIX|..]) == Some(Encode(body))
         || (exists k :: 0 <= k <= |body| && PercentDecode(url[|BASE_PREFIX|..]) == Some(Encode(body[..k] + TRUNCATION_NOTE)))
         || url == BASE_PREFIX
  {
    BasePrefixFits();
    url := BuildUrl(body, BASE_PREFIX, TRUNCATION_NOTE, GITHUB_ISSUE_URL_LIMIT);
    if |BASE_PREFIX| + |UrlEncode(body)| <= GITHUB_ISSUE_URL_LIMIT {
      DecodeEncoded(Encode(body));
      EncodedAlphabet(Encode(body));
      BodyIsWhole(UrlEncode(body));
      assert url[|BASE_PREFIX|..] == UrlEncode(body);
    } else if url != BASE_PREFIX {
      ghost var k :| 0 <= k <= |body| && url == BASE_PREFIX + Truncated(body, TRUNCATION_NOTE, k);
      DecodeEncoded(Encode(body[..k] + TRUNCATION_NOTE));
      EncodedAlphabet(Encode(body[..k] + TRUNCATION_NOTE));
      BodyIsWhole(Truncated(body, TRUNCATION_NOTE, k));
      assert url[|BASE_PREFIX|..] == Truncated(body, TRUNCATION_NOTE, k);
    } else {
      BodyIsWhole("");
      assert BASE_PREFIX + "" == BASE_PREFIX && url[|BASE_PREFIX|..] == "";
    }
  }
}
