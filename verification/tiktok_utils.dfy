/**
 * Video id extraction of src/utils/tiktokUtils.ts. The four regular expressions
 * are written out as matchers. `url.match(re)` (no `g` flag) reports the match
 * at the leftmost start position, so each pattern is tried at every position
 * from 0 upwards. The `i` flag without `u` folds ASCII letters only; `\w` is
 * `[A-Za-z0-9_]` and `\d` is `[0-9]`.
 */
module TikTokUtils {
  import opened Types
  import opened Seqs

  predicate IsDigit(c: char) {
    '0' <= c <= '9'
  }

  /** `\w` */
  predicate IsWordChar(c: char) {
    ('a' <= c <= 'z') || ('A' <= c <= 'Z') || IsDigit(c) || c == '_'
  }

  /** `[\w.-]`, the characters of a profile name. */
  predicate IsNameChar(c: char) {
    IsWordChar(c) || c == '.' || c == '-'
  }

  datatype CharClass = Digit | Word | Name

  predicate InClass(cc: CharClass, c: char) {
    match cc
    case Digit => IsDigit(c)
    case Word => IsWordChar(c)
    case Name => IsNameChar(c)
  }

  /** The case folding the `i` flag applies: ASCII lower case to upper case. */
  function Upper(c: char): char {
    if 'a' <= c <= 'z' then (c as int - 32) as char else c
  }

  predicate SameIgnoringCase(a: char, b: char) {
    Upper(a) == Upper(b)
  }

  /** Two strings of the same length that differ only in the case of ASCII letters. */
  predicate EqualIgnoringCase(s: string, t: string) {
    |s| == |t| && forall i :: 0 <= i < |s| ==> SameIgnoringCase(s[i], t[i])
  }

  /** The literal `lit` occurs at index `k` of `s`, up to case. */
  predicate LiteralAt(s: string, lit: string, k: nat) {
    k + |lit| <= |s| && forall j :: 0 <= j < |lit| ==> SameIgnoringCase(s[k + j], lit[j])
  }

  /** The end of the longest run of class `cc` that starts at `k`: where a greedy `+` stops. */
  function RunEnd(cc: CharClass, s: string, k: nat): (e: nat)
    requires k <= |s|
    ensures k <= e <= |s|
    decreases |s| - k
  {
    if k < |s| && InClass(cc, s[k]) then RunEnd(cc, s, k + 1) else k
  }

  /** Every character of the run is in the class, and the one after it (if any) is not. */
  lemma {:induction false} RunEndSpec(cc: CharClass, s: string, k: nat)
    requires k <= |s|
    decreases |s| - k
    ensures var e := RunEnd(cc, s, k);
      && (forall i :: k <= i < e ==> InClass(cc, s[i]))
      && (e == |s| || !InClass(cc, s[e]))
  {
    if k < |s| && InClass(cc, s[k]) {
      RunEndSpec(cc, s, k + 1);
    }
  }

  /** The four patterns, in the order they are tried. */
  datatype Pattern =
    | ProfileVideo  // tiktok\.com\/@[\w.-]+\/video\/(\d+)
    | ShortLink     // tiktok\.com\/t\/(\w+)
    | MobileLink    // vm\.tiktok\.com\/(\w+)
    | DirectId      // (\d{19})

  const Patterns: seq<Pattern> := [ProfileVideo, ShortLink, MobileLink, DirectId]

  const ProfilePrefix: string := "tiktok.com/@"
  const VideoInfix: string := "/video/"
  const ShortPrefix: string := "tiktok.com/t/"
  const MobilePrefix: string := "vm.tiktok.com/"
  const IdDigits: nat := 19

  /** Exactly `IdDigits` digits start at `k`. */
  predicate DigitsAt(s: string, k: nat) {
    k + IdDigits <= |s| && forall i :: k <= i < k + IdDigits ==> IsDigit(s[i])
  }

  /** `(cc+)` at `d`: the capture is the whole run, and a run must not be empty. */
  function RunAfter(cc: CharClass, s: string, d: nat): Option<string>
    requires d <= |s|
  {
    var e := RunEnd(cc, s, d);
    if e == d then None else Some(s[d..e])
  }

  /** A captured run is not empty and lies in the class. */
  lemma RunAfterSpec(cc: CharClass, s: string, d: nat)
    requires d <= |s|
    ensures var r := RunAfter(cc, s, d);
      r.Some? ==> r.value != [] && forall i :: 0 <= i < |r.value| ==> InClass(cc, r.value[i])
  {
    RunEndSpec(cc, s, d);
  }

  /** `lit(\w+)` at `k` */
  function WordAfter(s: string, k: nat, lit: string): Option<string>
    requires k <= |s|
  {
    if !LiteralAt(s, lit, k) then None else RunAfter(Word, s, k + |lit|)
  }

  /** `[\w.-]+\/video\/(\d+)` at `n`, the part of the profile pattern after its literal prefix. */
  function ProfileRest(s: string, n: nat): Option<string>
    requires n <= |s|
  {
    var nameEnd := RunEnd(Name, s, n);
    if nameEnd == n || !LiteralAt(s, VideoInfix, nameEnd) then None
    else RunAfter(Digit, s, nameEnd + |VideoInfix|)
  }

  /** `lit[\w.-]+\/video\/(\d+)` at `k` */
  function ProfileAfter(s: string, k: nat, lit: string): Option<string>
    requires k <= |s|
  {
    if !LiteralAt(s, lit, k) then None else ProfileRest(s, k + |lit|)
  }

  /**
   * The capture group when pattern `p` matches at start index `k`. A profile
   * name is followed by `/`, which is not a name character, so backtracking into
   * the name run cannot help: only the longest run can be followed by `/video/`.
   */
  function MatchAt(p: Pattern, s: string, k: nat): Option<string>
    requires k <= |s|
  {
    match p
    case ProfileVideo => ProfileAfter(s, k, ProfilePrefix)
    case ShortLink => WordAfter(s, k, ShortPrefix)
    case MobileLink => WordAfter(s, k, MobilePrefix)
    case DirectId => if DigitsAt(s, k) then Some(s[k..k + IdDigits]) else None
  }

  /** A capture is never empty and holds word characters only. */
  lemma CaptureIsWord(p: Pattern, s: string, k: nat)
    requires k <= |s|
    ensures var r := MatchAt(p, s, k);
      r.Some? ==> r.value != [] && forall i :: 0 <= i < |r.value| ==> IsWordChar(r.value[i])
  {
    match p
    case ProfileVideo =>
      var n := k + |ProfilePrefix|;
      if LiteralAt(s, ProfilePrefix, k) {
        var nameEnd := RunEnd(Name, s, n);
        if nameEnd != n && LiteralAt(s, VideoInfix, nameEnd) {
          RunAfterSpec(Digit, s, nameEnd + |VideoInfix|);
        }
      }
    case ShortLink =>
      if LiteralAt(s, ShortPrefix, k) {
        RunAfterSpec(Word, s, k + |ShortPrefix|);
      }
    case MobileLink =>
      if LiteralAt(s, MobilePrefix, k) {
        RunAfterSpec(Word, s, k + |MobilePrefix|);
      }
    case DirectId =>
  }

  /** Entry `i` says whether `p` matches at start index `i`. */
  function Starts(p: Pattern, s: string): (hits: seq<bool>)
    ensures |hits| == |s| + 1
  {
    seq(|s| + 1, i requires 0 <= i <= |s| => MatchAt(p, s, i).Some?)
  }

  /** The leftmost start index where `p` matches; `LeftmostSpec` says so. */
  function Leftmost(p: Pattern, s: string): Option<nat> {
    IndexOf(Starts(p, s), true)
  }

  /** No match starts before the leftmost one, and none at all when there is none. */
  lemma LeftmostSpec(p: Pattern, s: string)
    ensures var r := Leftmost(p, s);
      && (r.Some? ==> r.value <= |s| && MatchAt(p, s, r.value).Some?)
      && (r.Some? ==> forall i :: 0 <= i < r.value ==> MatchAt(p, s, i).None?)
      && (r.None? ==> forall i :: 0 <= i <= |s| ==> MatchAt(p, s, i).None?)
  {
    var hits := Starts(p, s);
    var r := Leftmost(p, s);
    if r.Some? {
      assert hits[r.value];
      forall i | 0 <= i < r.value
        ensures MatchAt(p, s, i).None?
      {
        assert hits[..r.value][i] == hits[i];
      }
    } else {
      forall i | 0 <= i <= |s|
        ensures MatchAt(p, s, i).None?
      {
        assert hits[i] in hits;
      }
    }
  }

  /** `s.match(p)?.[1]`: the capture of the leftmost match, if any. */
  function Exec(p: Pattern, s: string): (r: Option<string>)
    ensures r.Some? ==> r.value != [] && forall i :: 0 <= i < |r.value| ==> IsWordChar(r.value[i])
  {
    LeftmostSpec(p, s);
    match Leftmost(p, s)
    case None => None
    case Some(i) => CaptureIsWord(p, s, i); MatchAt(p, s, i)
  }

  /** No capture exactly when the pattern matches nowhere; otherwise the capture of some match. */
  lemma ExecSpec(p: Pattern, s: string)
    ensures Exec(p, s).None? <==> forall i :: 0 <= i <= |s| ==> MatchAt(p, s, i).None?
    ensures Exec(p, s).Some? ==> exists i :: 0 <= i <= |s| && MatchAt(p, s, i) == Exec(p, s)
  {
    LeftmostSpec(p, s);
  }

  /** What `url.match(pattern)?.[1]` gives for each pattern, in order. */
  function Captures(ps: seq<Pattern>, url: string): (cs: seq<Option<string>>)
    ensures |cs| == |ps|
  {
    seq(|ps|, i requires 0 <= i < |ps| => Exec(ps[i], url))
  }

  /** `match && match[1]`: a capture that is present and not empty. */
  predicate Usable(c: Option<string>) {
    c.Some? && c.value != []
  }

  /** The loop over the captures from index `k` on: the first usable one is returned. */
  function FirstPresent(cs: seq<Option<string>>, k: nat): (r: Option<string>)
    requires k <= |cs|
    decreases |cs| - k
    ensures r.None? <==> forall i :: k <= i < |cs| ==> !Usable(cs[i])
    ensures r.Some? ==> Usable(r)
  {
    if k == |cs| then None
    else if Usable(cs[k]) then cs[k]
    else FirstPresent(cs, k + 1)
  }

  /** The result is the capture at the first usable index: every earlier one is unusable. */
  lemma {:induction false} FirstPresentIsFirst(cs: seq<Option<string>>, k: nat)
    requires k <= |cs|
    decreases |cs| - k
    ensures var r := FirstPresent(cs, k);
      r.Some? ==> exists i :: k <= i < |cs| && cs[i] == r && forall j :: k <= j < i ==> !Usable(cs[j])
  {
    if k < |cs| && !Usable(cs[k]) {
      FirstPresentIsFirst(cs, k + 1);
      var r := FirstPresent(cs, k);
      if r.Some? {
        var i :| k + 1 <= i < |cs| && cs[i] == r && forall j :: k + 1 <= j < i ==> !Usable(cs[j]);
        assert forall j :: k <= j < i ==> !Usable(cs[j]);
      }
    }
  }

  /** The loop over the patterns `ps`: the first usable capture, in pattern order. */
  function FirstCapture(ps: seq<Pattern>, url: string): (r: Option<string>)
    ensures r.None? <==> forall i :: 0 <= i < |ps| ==> Exec(ps[i], url).None?
    ensures r.Some? ==> r.value != [] && forall i :: 0 <= i < |r.value| ==> IsWordChar(r.value[i])
  {
    var cs := Captures(ps, url);
    FirstPresentIsFirst(cs, 0);
    assert forall i :: 0 <= i < |ps| ==> cs[i] == Exec(ps[i], url);
    FirstPresent(cs, 0)
  }

  /** The first usable capture sits at index `k` when all before it are unusable. */
  lemma {:induction false} FirstPresentAt(cs: seq<Option<string>>, from: nat, k: nat)
    requires from <= k < |cs| && Usable(cs[k])
    requires forall j :: from <= j < k ==> !Usable(cs[j])
    decreases k - from
    ensures FirstPresent(cs, from) == cs[k]
  {
    if from < k {
      FirstPresentAt(cs, from + 1, k);
    }
  }

  /**
   * `extractTikTokId(url)`: null exactly when none of the four patterns matches
   * anywhere; otherwise a non-empty run of word characters.
   */
  function ExtractTikTokId(url: string): (r: Option<string>)
    ensures r.None? <==> forall i :: 0 <= i < |Patterns| ==> Exec(Patterns[i], url).None?
    ensures r.Some? ==> r.value != [] && forall i :: 0 <= i < |r.value| ==> IsWordChar(r.value[i])
  {
    FirstCapture(Patterns, url)
  }

  /** The answer is the capture of the first pattern that matches; the earlier ones match nowhere. */
  lemma ExtractIsFirstMatch(url: string)
    ensures var r := ExtractTikTokId(url);
      r.Some? ==> exists i :: (0 <= i < |Patterns| && Exec(Patterns[i], url) == r
        && forall j :: 0 <= j < i ==> forall k :: 0 <= k <= |url| ==> MatchAt(Patterns[j], url, k).None?)
  {
    var cs := Captures(Patterns, url);
    FirstPresentIsFirst(cs, 0);
    var r := ExtractTikTokId(url);
    if r.Some? {
      var i :| 0 <= i < |cs| && cs[i] == r && forall j :: 0 <= j < i ==> !Usable(cs[j]);
      forall j | 0 <= j < i
        ensures forall k :: 0 <= k <= |url| ==> MatchAt(Patterns[j], url, k).None?
      {
        assert !Usable(cs[j]) && cs[j] == Exec(Patterns[j], url);
        ExecSpec(Patterns[j], url);
      }
      assert Exec(Patterns[i], url) == r;
    }
  }

  const EmbedPrefix: string := "https://www.tiktok.com/embed/v2/"
  const DirectPrefix: string := "https://www.tiktok.com/video/"

  /** `getTikTokEmbedUrl(url)` */
  function EmbedUrl(url: string): (r: string)
    ensures r == [] <==> ExtractTikTokId(url).None?
    ensures r != [] ==> r == EmbedPrefix + ExtractTikTokId(url).value
  {
    match ExtractTikTokId(url)
    case None => ""
    case Some(id) => if id == [] then "" else EmbedPrefix + id
  }

  /** `getTikTokDirectUrl(url)` */
  function DirectUrl(url: string): (r: string)
    ensures ExtractTikTokId(url).None? ==> r == url
    ensures ExtractTikTokId(url).Some? ==> r == DirectPrefix + ExtractTikTokId(url).value
  {
    match ExtractTikTokId(url)
    case None => url
    case Some(id) => if id == [] then url else DirectPrefix + id
  }

  /** Both builders are driven by the same id: no id gives `''` and the input back; an id gives the two URL forms of it. */
  lemma BuildersAgree(url: string)
    ensures EmbedUrl(url) == [] ==> DirectUrl(url) == url
    ensures EmbedUrl(url) != [] ==>
      && EmbedUrl(url)[|EmbedPrefix|..] == DirectUrl(url)[|DirectPrefix|..]
      && EmbedUrl(url)[|EmbedPrefix|..] != []
  {
    if EmbedUrl(url) != [] {
      var id := ExtractTikTokId(url).value;
      assert EmbedUrl(url)[|EmbedPrefix|..] == id;
      assert DirectUrl(url)[|DirectPrefix|..] == id;
    }
  }

  // ------------------------------------------------ where a pattern matches

  /** A run that stops at `e` is the longest run: `RunEnd` is determined by its contract. */
  lemma {:induction false} RunEndIs(cc: CharClass, s: string, k: nat, e: nat)
    requires k <= e <= |s|
    requires forall i :: k <= i < e ==> InClass(cc, s[i])
    requires e == |s| || !InClass(cc, s[e])
    decreases e - k
    ensures RunEnd(cc, s, k) == e
  {
    if k < e {
      RunEndIs(cc, s, k + 1, e);
    }
  }

  /** The leftmost match is the first index where the pattern matches. */
  lemma ExecAt(p: Pattern, s: string, k: nat)
    requires k <= |s| && MatchAt(p, s, k).Some?
    requires forall i :: 0 <= i < k ==> MatchAt(p, s, i).None?
    ensures Exec(p, s) == MatchAt(p, s, k)
  {
    var r := Leftmost(p, s);
    LeftmostSpec(p, s);
    assert r.Some?;
    assert r.value == k;
  }

  /** Only `@` is `@` up to case. */
  lemma AtSignHasNoCase(c: char)
    requires SameIgnoringCase(c, '@')
    ensures c == '@'
  {
  }

  /** Only `/` is `/` up to case. */
  lemma SlashHasNoCase(c: char)
    requires SameIgnoringCase(c, '/')
    ensures c == '/'
  {
  }

  /** The profile pattern at `k0`, given by the indices where its parts end. */
  lemma ProfileMatchAt(url: string, k0: nat, nameEnd: nat, e: nat)
    requires k0 + |ProfilePrefix| < nameEnd && nameEnd + |VideoInfix| < e <= |url|
    requires LiteralAt(url, ProfilePrefix, k0)
    requires forall i :: k0 + |ProfilePrefix| <= i < nameEnd ==> IsNameChar(url[i])
    requires LiteralAt(url, VideoInfix, nameEnd)
    requires forall i :: nameEnd + |VideoInfix| <= i < e ==> IsDigit(url[i])
    requires e == |url| || !IsDigit(url[e])
    ensures MatchAt(ProfileVideo, url, k0) == Some(url[nameEnd + |VideoInfix|..e])
  {
    assert SameIgnoringCase(url[nameEnd + 0], VideoInfix[0]);
    SlashHasNoCase(url[nameEnd]);
    RunEndIs(Name, url, k0 + |ProfilePrefix|, nameEnd);
    RunEndIs(Digit, url, nameEnd + |VideoInfix|, e);
  }

  /** Without an `@` the profile pattern cannot start. */
  lemma NoProfileBefore(url: string, k0: nat)
    requires k0 <= |url|
    requires forall i :: 0 <= i < k0 + |ProfilePrefix| - 1 && i < |url| ==> url[i] != '@'
    ensures forall i :: 0 <= i < k0 ==> MatchAt(ProfileVideo, url, i).None?
  {
    forall i | 0 <= i < k0
      ensures MatchAt(ProfileVideo, url, i).None?
    {
      if LiteralAt(url, ProfilePrefix, i) {
        assert SameIgnoringCase(url[i + 11], ProfilePrefix[11]);
        AtSignHasNoCase(url[i + 11]);
      }
    }
  }

  /**
   * A URL of the form `...tiktok.com/@<name>/video/<digits>...`, with no `@`
   * before the host, yields exactly the digit run.
   */
  lemma ProfileUrlGivesDigits(pre: string, name: string, digits: string, rest: string)
    requires '@' !in pre
    requires name != [] && forall i :: 0 <= i < |name| ==> IsNameChar(name[i])
    requires digits != [] && forall i :: 0 <= i < |digits| ==> IsDigit(digits[i])
    requires rest == [] || !IsDigit(rest[0])
    ensures ExtractTikTokId(pre + ProfilePrefix + name + VideoInfix + digits + rest) == Some(digits)
  {
    var url := pre + ProfilePrefix + name + VideoInfix + digits + rest;
    var tail := name + VideoInfix + digits + rest;
    assert url == pre + ProfilePrefix + tail;
    ProfileUrlMatchesAtHost(pre, name, digits, rest);
    ProfileUrlNothingEarlier(pre, tail);
    ExecAt(ProfileVideo, url, |pre|);
    ProfileCaptureWins(url);
  }

  /** A non-empty capture of the first pattern is the result. */
  lemma ProfileCaptureWins(url: string)
    requires Exec(ProfileVideo, url).Some? && Exec(ProfileVideo, url).value != []
    ensures ExtractTikTokId(url) == Exec(ProfileVideo, url)
  {
    var cs := Captures(Patterns, url);
    assert cs[0] == Exec(ProfileVideo, url);
    FirstPresentAt(cs, 0, 0);
  }

  /** Such a URL matches the profile pattern where the host starts, capturing the digits. */
  lemma ProfileUrlMatchesAtHost(pre: string, name: string, digits: string, rest: string)
    requires name != [] && forall i :: 0 <= i < |name| ==> IsNameChar(name[i])
    requires digits != [] && forall i :: 0 <= i < |digits| ==> IsDigit(digits[i])
    requires rest == [] || !IsDigit(rest[0])
    ensures var url := pre + ProfilePrefix + name + VideoInfix + digits + rest;
      MatchAt(ProfileVideo, url, |pre|) == Some(digits)
  {
    var head := pre + ProfilePrefix;
    var url := head + name + VideoInfix + digits + rest;
    var k0 := |pre|;
    var nameEnd := |head| + |name|;
    var d := nameEnd + |VideoInfix|;
    var e := d + |digits|;
    assert forall j :: 0 <= j < |ProfilePrefix| ==> url[k0 + j] == ProfilePrefix[j];
    assert forall j :: 0 <= j < |name| ==> url[|head| + j] == name[j];
    assert forall j :: 0 <= j < |VideoInfix| ==> url[nameEnd + j] == VideoInfix[j];
    assert forall j :: 0 <= j < |digits| ==> url[d + j] == digits[j];
    assert e < |url| ==> url[e] == rest[0];
    assert url[d..e] == digits;
    ProfileMatchAt(url, k0, nameEnd, e);
  }

  /** With no `@` before the host, the profile pattern cannot match before it. */
  lemma ProfileUrlNothingEarlier(pre: string, tail: string)
    requires '@' !in pre
    ensures var url := pre + ProfilePrefix + tail;
      forall i :: 0 <= i < |pre| ==> MatchAt(ProfileVideo, url, i).None?
  {
    var url := pre + ProfilePrefix + tail;
    var k0 := |pre|;
    assert forall i :: 0 <= i < k0 ==> url[i] == pre[i];
    assert forall j :: 0 <= j < |ProfilePrefix| - 1 ==> url[k0 + j] == ProfilePrefix[j] && ProfilePrefix[j] != '@';
    NoProfileBefore(url, k0);
  }

  /**
   * When the first three patterns fail, the result is the leftmost run of
   * 19 digits.
   */
  lemma DirectIdFallback(url: string, k: nat)
    requires Exec(ProfileVideo, url).None? && Exec(ShortLink, url).None? && Exec(MobileLink, url).None?
    requires DigitsAt(url, k)
    requires forall j :: 0 <= j < k ==> !DigitsAt(url, j)
    ensures ExtractTikTokId(url) == Some(url[k..k + IdDigits])
  {
    ExecAt(DirectId, url, k);
    var cs := Captures(Patterns, url);
    assert cs[0].None? && cs[1].None? && cs[2].None?;
    assert cs[3] == Exec(DirectId, url);
    FirstPresentAt(cs, 0, 3);
  }

  // ------------------------------------------------------------- case folding

  /** Folding is an equivalence, and every character class is closed under it. */
  lemma SameIgnoringCaseClass(a: char, b: char)
    requires SameIgnoringCase(a, b)
    ensures forall cc :: InClass(cc, a) <==> InClass(cc, b)
  {
  }

  /** Equal up to case, or both absent. */
  predicate SameCapture(a: Option<string>, b: Option<string>) {
    (a.None? && b.None?) || (a.Some? && b.Some? && EqualIgnoringCase(a.value, b.value))
  }

  lemma LiteralIgnoresCase(s: string, t: string, lit: string, k: nat)
    requires EqualIgnoringCase(s, t)
    ensures LiteralAt(s, lit, k) <==> LiteralAt(t, lit, k)
  {
  }

  lemma RunEndIgnoresCase(cc: CharClass, s: string, t: string, k: nat)
    requires EqualIgnoringCase(s, t) && k <= |s|
    ensures RunEnd(cc, s, k) == RunEnd(cc, t, k)
  {
    RunEndSpec(cc, s, k);
    var e := RunEnd(cc, s, k);
    forall i | k <= i < e ensures InClass(cc, t[i]) {
      SameIgnoringCaseClass(s[i], t[i]);
    }
    if e < |s| {
      SameIgnoringCaseClass(s[e], t[e]);
    }
    RunEndIs(cc, t, k, e);
  }

  lemma SliceIgnoresCase(s: string, t: string, a: nat, b: nat)
    requires EqualIgnoringCase(s, t) && a <= b <= |s|
    ensures EqualIgnoringCase(s[a..b], t[a..b])
  {
  }

  lemma MatchAtIgnoresCase(p: Pattern, s: string, t: string, k: nat)
    requires EqualIgnoringCase(s, t) && k <= |s|
    ensures SameCapture(MatchAt(p, s, k), MatchAt(p, t, k))
  {
    match p
    case ProfileVideo => ProfileAfterIgnoresCase(s, t, k, ProfilePrefix);
    case ShortLink => WordAfterIgnoresCase(s, t, k, ShortPrefix);
    case MobileLink => WordAfterIgnoresCase(s, t, k, MobilePrefix);
    case DirectId => DigitsIgnoreCase(s, t, k);
  }

  lemma ProfileAfterIgnoresCase(s: string, t: string, k: nat, lit: string)
    requires EqualIgnoringCase(s, t) && k <= |s|
    ensures SameCapture(ProfileAfter(s, k, lit), ProfileAfter(t, k, lit))
  {
    LiteralIgnoresCase(s, t, lit, k);
    if LiteralAt(s, lit, k) {
      var n := k + |lit|;
      ProfileRestIgnoresCase(s, t, n);
      assert ProfileAfter(s, k, lit) == ProfileRest(s, n);
      assert ProfileAfter(t, k, lit) == ProfileRest(t, n);
    } else {
      assert ProfileAfter(s, k, lit).None? && ProfileAfter(t, k, lit).None?;
    }
  }

  lemma ProfileRestIgnoresCase(s: string, t: string, n: nat)
    requires EqualIgnoringCase(s, t) && n <= |s|
    ensures SameCapture(ProfileRest(s, n), ProfileRest(t, n))
  {
    RunEndIgnoresCase(Name, s, t, n);
    var nameEnd := RunEnd(Name, s, n);
    LiteralIgnoresCase(s, t, VideoInfix, nameEnd);
    if nameEnd != n && LiteralAt(s, VideoInfix, nameEnd) {
      RunAfterIgnoresCase(Digit, s, t, nameEnd + |VideoInfix|);
    }
  }

  lemma RunAfterIgnoresCase(cc: CharClass, s: string, t: string, d: nat)
    requires EqualIgnoringCase(s, t) && d <= |s|
    ensures SameCapture(RunAfter(cc, s, d), RunAfter(cc, t, d))
  {
    RunEndIgnoresCase(cc, s, t, d);
    SliceIgnoresCase(s, t, d, RunEnd(cc, s, d));
  }

  lemma DigitsIgnoreCase(s: string, t: string, k: nat)
    requires EqualIgnoringCase(s, t) && k <= |s|
    ensures SameCapture(MatchAt(DirectId, s, k), MatchAt(DirectId, t, k))
  {
    if k + IdDigits <= |s| {
      forall i | k <= i < k + IdDigits
        ensures IsDigit(s[i]) <==> IsDigit(t[i])
      {
        SameIgnoringCaseClass(s[i], t[i]);
        assert InClass(Digit, s[i]) <==> InClass(Digit, t[i]);
      }
      SliceIgnoresCase(s, t, k, k + IdDigits);
    }
  }

  lemma WordAfterIgnoresCase(s: string, t: string, k: nat, lit: string)
    requires EqualIgnoringCase(s, t) && k <= |s|
    ensures SameCapture(WordAfter(s, k, lit), WordAfter(t, k, lit))
  {
    LiteralIgnoresCase(s, t, lit, k);
    if LiteralAt(s, lit, k) {
      RunAfterIgnoresCase(Word, s, t, k + |lit|);
    }
  }

  lemma ExecIgnoresCase(p: Pattern, s: string, t: string)
    requires EqualIgnoringCase(s, t)
    ensures SameCapture(Exec(p, s), Exec(p, t))
  {
    forall i | 0 <= i <= |s|
      ensures MatchAt(p, s, i).Some? <==> MatchAt(p, t, i).Some?
    {
      MatchAtIgnoresCase(p, s, t, i);
    }
    var r := Leftmost(p, s);
    LeftmostSpec(p, s);
    if r.Some? {
      ExecAt(p, t, r.value);
      MatchAtIgnoresCase(p, s, t, r.value);
    }
  }

  /** Captures that agree pointwise up to case give first usable captures that agree up to case. */
  lemma {:induction false} FirstPresentIgnoresCase(cs: seq<Option<string>>, ds: seq<Option<string>>, k: nat)
    requires |cs| == |ds| && k <= |cs|
    requires forall i :: 0 <= i < |cs| ==> SameCapture(cs[i], ds[i])
    decreases |cs| - k
    ensures SameCapture(FirstPresent(cs, k), FirstPresent(ds, k))
  {
    if k < |cs| {
      assert Usable(cs[k]) <==> Usable(ds[k]) by {
        assert SameCapture(cs[k], ds[k]);
      }
      FirstPresentIgnoresCase(cs, ds, k + 1);
    }
  }

  /**
   * The `i` flag: URLs that differ only in the case of ASCII letters give the
   * same answer up to case (a digit id comes back identical).
   */
  lemma ExtractIgnoresCase(s: string, t: string)
    requires EqualIgnoringCase(s, t)
    ensures SameCapture(ExtractTikTokId(s), ExtractTikTokId(t))
  {
    var cs, ds := Captures(Patterns, s), Captures(Patterns, t);
    forall i | 0 <= i < |cs|
      ensures SameCapture(cs[i], ds[i])
    {
      ExecIgnoresCase(Patterns[i], s, t);
    }
    FirstPresentIgnoresCase(cs, ds, 0);
  }
}
