/**
 Reading a GitHub repository reference, the key it is compared by in the demo
 account's allowlist, and the workspace directory it is cloned into.
 */
module RepoSource {
  import opened Prelude

  /** `word` is what the regular expressions call \w, `space` what `strip` drops and
      `lower` what lower-cases; they are left open outside the characters the
      patterns spell out. */
  datatype Alphabet = Alphabet(word: char -> bool, space: char -> bool, lower: string -> string)

  ghost predicate Sane(a: Alphabet) {
    && (forall c :: 'a' <= c <= 'z' || 'A' <= c <= 'Z' || '0' <= c <= '9' || c == '_' ==> a.word(c))
    && (forall c :: a.word(c) ==> !a.space(c) && c != '/' && c != ':' && c != '.' && c != '-' && c != '~')
    && !a.space('/') && !a.space(':') && !a.space('.') && !a.space('-') && !a.space('~')
  }

  /** Lower-casing replaces each character by one or more, how many being settled by
      the character alone. */
  ghost predicate LowersEach(a: Alphabet) {
    && (forall x: string, y: string :: |a.lower(x + y)| == |a.lower(x)| + |a.lower(y)|)
    && (forall x: string :: x != "" ==> a.lower(x) != "")
  }

  datatype Source = Source(url: string, owner: string, name: string)
  datatype Match = Match(owner: string, name: string, suffix: string)

  predicate IsNameChar(a: Alphabet, c: char) {
    a.word(c) || c == '.' || c == '-'
  }

  predicate IsName(a: Alphabet, s: string) {
    s != "" && forall i :: 0 <= i < |s| ==> IsNameChar(a, s[i])
  }

  // ------------------------------------------------------------------ strings

  function StripLeft(a: Alphabet, s: string): string {
    if s != "" && a.space(s[0]) then StripLeft(a, s[1..]) else s
  }

  function StripRight(a: Alphabet, s: string): string {
    if s != "" && a.space(s[|s| - 1]) then StripRight(a, s[..|s| - 1]) else s
  }

  function Strip(a: Alphabet, s: string): string {
    StripRight(a, StripLeft(a, s))
  }

  function TrimSlashes(s: string): string {
    if s != "" && s[|s| - 1] == '/' then TrimSlashes(s[..|s| - 1]) else s
  }

  function RemovePrefix(s: string, prefix: string): string {
    if prefix <= s then s[|prefix|..] else s
  }

  predicate EndsWith(s: string, suffix: string) {
    |suffix| <= |s| && s[|s| - |suffix|..] == suffix
  }

  function RemoveSuffix(s: string, suffix: string): string {
    if EndsWith(s, suffix) then s[..|s| - |suffix|] else s
  }

  predicate OccursAt(s: string, t: string, i: nat) {
    i + |t| <= |s| && s[i..i + |t|] == t
  }

  predicate Contains(s: string, t: string) {
    exists i: nat :: i <= |s| && OccursAt(s, t, i)
  }

  // ------------------------------------------------------------------ parsing

  /** What may follow the repository name; a slash only in a full reference. */
  predicate IsSuffix(rest: string, full: bool) {
    rest == "" || rest == ".git" || (full && (rest == "/" || rest == ".git/"))
  }

  /** The lazy repository group: the shortest name that leaves a suffix. */
  function NameEnd(a: Alphabet, s: string, full: bool, k: nat): (end: Option<nat>)
    requires k <= |s|
    ensures end.Some? ==> k <= end.value <= |s| && end.value > 0 && IsSuffix(s[end.value..], full)
    decreases |s| - k
  {
    if k > 0 && IsSuffix(s[k..], full) then Some(k)
    else if k < |s| && IsNameChar(a, s[k]) then NameEnd(a, s, full, k + 1)
    else None
  }

  function FirstSlash(s: string): (k: nat)
    ensures k <= |s| && (forall i :: 0 <= i < k ==> s[i] != '/') && (k < |s| ==> s[k] == '/')
  {
    if s == "" || s[0] == '/' then 0 else FirstSlash(s[1..]) + 1
  }

  function MatchPath(a: Alphabet, s: string, full: bool): Option<Match> {
    var k := FirstSlash(s);
    if k == |s| || !IsName(a, s[..k]) then None
    else
      var rest := s[k + 1..];
      match NameEnd(a, rest, full, 0)
      case None => None
      case Some(end) => Some(Match(s[..k], rest[..end], rest[end..]))
  }

  function WithoutScheme(s: string): string {
    if "https://" <= s then s[8..] else RemovePrefix(s, "http://")
  }

  /** Neither optional part can start the host name, so the pattern never takes an
      optional part back. */
  function MatchUrl(a: Alphabet, s: string): Option<Match> {
    var t := RemovePrefix(WithoutScheme(s), "www.");
    if "github.com/" <= t then MatchPath(a, t[11..], true) else None
  }

  function Url(owner: string, name: string): string {
    "https://github.com/" + (owner + "/" + (name + ".git"))
  }

  function MatchValue(a: Alphabet, value: string): Option<Match> {
    var m := MatchUrl(a, value);
    if m.None? && value != "" && !Contains(value, "://") && value[0] != '/' && value[0] != '.' && value[0] != '~'
    then MatchPath(a, value, false) else m
  }

  /** None where the source raises; without local paths. */
  function ParseRepoSource(a: Alphabet, raw: string): Option<Source> {
    match MatchValue(a, Strip(a, raw))
    case None => None
    case Some(m) => Some(Source(Url(m.owner, m.name), m.owner, m.name))
  }

  function KeyBeforeLower(a: Alphabet, url: string): string {
    var v := RemoveSuffix(TrimSlashes(Strip(a, url)), ".git");
    RemovePrefix(RemovePrefix(RemovePrefix(v, "https://"), "http://"), "www.")
  }

  /** `_normalize_for_allowlist`. */
  function AllowlistKey(a: Alphabet, url: string): string {
    a.lower(KeyBeforeLower(a, url))
  }

  function Workspace(s: Source): string {
    s.owner + "__" + s.name
  }

  // ------------------------------------------------- what a match is

  /** Lazy means: no shorter name leaves a suffix. */
  lemma {:induction false} NameEndIsShortest(a: Alphabet, s: string, full: bool, k: nat, shorter: nat)
    requires k <= |s| && NameEnd(a, s, full, k).Some?
    requires 0 < shorter && k <= shorter < NameEnd(a, s, full, k).value
    ensures !IsSuffix(s[shorter..], full)
    decreases |s| - k
  {
    if shorter > k {
      NameEndIsShortest(a, s, full, k + 1, shorter);
    }
  }

  lemma {:induction false} NameEndIsName(a: Alphabet, s: string, full: bool, k: nat)
    requires k <= |s| && NameEnd(a, s, full, k).Some?
    ensures forall i :: k <= i < NameEnd(a, s, full, k).value ==> IsNameChar(a, s[i])
    decreases |s| - k
  {
    if !(k > 0 && IsSuffix(s[k..], full)) {
      NameEndIsName(a, s, full, k + 1);
    }
  }

  lemma {:induction false} NameEndExists(a: Alphabet, s: string, full: bool, k: nat, end: nat)
    requires k <= end <= |s| && 0 < end && IsSuffix(s[end..], full)
    requires forall i :: k <= i < end ==> IsNameChar(a, s[i])
    ensures NameEnd(a, s, full, k).Some? && NameEnd(a, s, full, k).value <= end
    decreases end - k
  {
    if !(k > 0 && IsSuffix(s[k..], full)) {
      NameEndExists(a, s, full, k + 1, end);
    }
  }

  /** Owner, slash, name and suffix. */
  ghost predicate Fits(a: Alphabet, s: string, full: bool, m: Match) {
    && IsName(a, m.owner) && IsName(a, m.name) && IsSuffix(m.suffix, full)
    && s == m.owner + "/" + (m.name + m.suffix)
  }

  lemma {:induction false} SlashEndsOwner(a: Alphabet, owner: string, rest: string)
    requires Sane(a) && IsName(a, owner)
    ensures FirstSlash(owner + "/" + rest) == |owner|
    ensures (owner + "/" + rest)[..|owner|] == owner && (owner + "/" + rest)[|owner| + 1..] == rest
  {
    var s := owner + "/" + rest;
    assert s[|owner|] == '/';
    assert forall i :: 0 <= i < |owner| ==> s[i] == owner[i] && IsNameChar(a, owner[i]);
  }

  lemma MatchPathFits(a: Alphabet, s: string, full: bool)
    requires MatchPath(a, s, full).Some?
    ensures Fits(a, s, full, MatchPath(a, s, full).value)
  {
    var k := FirstSlash(s);
    var rest := s[k + 1..];
    NameEndIsName(a, rest, full, 0);
    var end := NameEnd(a, rest, full, 0).value;
    var m := MatchPath(a, s, full).value;
    assert m == Match(s[..k], rest[..end], rest[end..]);
    assert rest == m.name + m.suffix;
    assert s == m.owner + "/" + rest;
  }

  lemma MatchPathIsShortest(a: Alphabet, s: string, full: bool, m: Match)
    requires Sane(a) && Fits(a, s, full, m)
    ensures MatchPath(a, s, full).Some?
    ensures MatchPath(a, s, full).value.owner == m.owner && |MatchPath(a, s, full).value.name| <= |m.name|
  {
    var rest := m.name + m.suffix;
    SlashEndsOwner(a, m.owner, rest);
    assert rest[|m.name|..] == m.suffix;
    assert forall i :: 0 <= i < |m.name| ==> rest[i] == m.name[i];
    NameEndExists(a, rest, full, 0, |m.name|);
  }

  // ------------------------------------------------- the pattern, declared

  /** The path matcher against the pattern: a match exists if and only if the text
      has the form, and then it is the one with the shortest name. */
  lemma MatchPathIsThePattern(a: Alphabet, s: string, full: bool, m: Match)
    requires Sane(a)
    ensures MatchPath(a, s, full) == Some(m)
            <==> Fits(a, s, full, m) && forall other :: Fits(a, s, full, other) ==> |m.name| <= |other.name|
  {
    forall other | Fits(a, s, full, other)
      ensures MatchPath(a, s, full).Some? && |MatchPath(a, s, full).value.name| <= |other.name|
    {
      MatchPathIsShortest(a, s, full, other);
    }
    if MatchPath(a, s, full).Some? {
      MatchPathFits(a, s, full);
      if Fits(a, s, full, m) && |m.name| == |MatchPath(a, s, full).value.name| {
        SameLengthSamePath(a, s, full, m);
      }
    }
  }

  lemma SameLengthSamePath(a: Alphabet, s: string, full: bool, m: Match)
    requires Sane(a) && Fits(a, s, full, m)
    requires MatchPath(a, s, full).Some? && |m.name| == |MatchPath(a, s, full).value.name|
    ensures MatchPath(a, s, full) == Some(m)
  {
    var rest := m.name + m.suffix;
    SlashEndsOwner(a, m.owner, rest);
    assert rest[..|m.name|] == m.name && rest[|m.name|..] == m.suffix;
  }

  /** What may stand before the owner: scheme and www are optional. */
  predicate IsHost(scheme: string, www: string) {
    (scheme == "" || scheme == "http://" || scheme == "https://") && (www == "" || www == "www.")
  }

  function Reference(scheme: string, www: string, m: Match): string {
    scheme + (www + ("github.com/" + (m.owner + "/" + (m.name + m.suffix))))
  }

  ghost predicate FullForm(a: Alphabet, value: string, m: Match) {
    && IsName(a, m.owner) && IsName(a, m.name) && IsSuffix(m.suffix, true)
    && exists scheme, www :: IsHost(scheme, www) && value == Reference(scheme, www, m)
  }

  lemma DropsScheme(scheme: string, t: string)
    requires scheme == "" || scheme == "http://" || scheme == "https://"
    requires t != "" && t[0] != 'h'
    ensures WithoutScheme(scheme + t) == t
    ensures RemovePrefix(RemovePrefix(scheme + t, "https://"), "http://") == t
  {
    var s := scheme + t;
    if scheme == "" {
      assert s == t;
    } else {
      assert s[..|scheme|] == scheme && s[|scheme|..] == t;
      if scheme == "http://" {
        assert s[4] == ':';
      }
    }
  }

  lemma DropsWww(www: string, t: string)
    requires www == "" || www == "www."
    requires t != "" && t[0] != 'w'
    ensures RemovePrefix(www + t, "www.") == t
  {
    var s := www + t;
    if www == "" {
      assert s == t;
    } else {
      assert s[..4] == www && s[4..] == t;
    }
  }

  /** The host part comes off whole. */
  lemma DropsHost(scheme: string, www: string, p: string)
    requires IsHost(scheme, www)
    ensures var s := scheme + (www + ("github.com/" + p));
      && RemovePrefix(WithoutScheme(s), "www.") == "github.com/" + p
      && RemovePrefix(RemovePrefix(RemovePrefix(s, "https://"), "http://"), "www.") == "github.com/" + p
  {
    var t := "github.com/" + p;
    assert t[0] == 'g';
    assert (www + t)[0] == if www == "" then 'g' else 'w';
    DropsScheme(scheme, www + t);
    DropsWww(www, t);
  }

  lemma TakesHost(s: string) returns (scheme: string, www: string)
    ensures IsHost(scheme, www) && s == scheme + (www + RemovePrefix(WithoutScheme(s), "www."))
  {
    scheme := if "https://" <= s then "https://" else if "http://" <= s then "http://" else "";
    var t := WithoutScheme(s);
    www := if "www." <= t then "www." else "";
    assert s == scheme + t;
    assert t == www + RemovePrefix(t, "www.");
  }

  lemma MatchUrlOfReference(a: Alphabet, scheme: string, www: string, m: Match)
    requires IsHost(scheme, www)
    ensures MatchUrl(a, Reference(scheme, www, m)) == MatchPath(a, m.owner + "/" + (m.name + m.suffix), true)
  {
    var p := m.owner + "/" + (m.name + m.suffix);
    DropsHost(scheme, www, p);
    assert ("github.com/" + p)[..11] == "github.com/" && ("github.com/" + p)[11..] == p;
  }

  lemma MatchUrlFits(a: Alphabet, value: string)
    requires MatchUrl(a, value).Some?
    ensures FullForm(a, value, MatchUrl(a, value).value)
  {
    var m := MatchUrl(a, value).value;
    var scheme, www := TakesHost(value);
    var t := RemovePrefix(WithoutScheme(value), "www.");
    var path := t[11..];
    HostComesOff(t);
    assert MatchPath(a, path, true) == Some(m);
    MatchPathFits(a, path, true);
    assert value == Reference(scheme, www, m);
  }

  lemma HostComesOff(t: string)
    requires "github.com/" <= t
    ensures t == "github.com/" + t[11..]
  {
  }

  /** The matcher finds exactly what the pattern describes: it succeeds if and only
      if the value has the form, and then takes the shortest name that fits. */
  lemma MatchUrlIsThePattern(a: Alphabet, value: string, m: Match)
    requires Sane(a)
    ensures MatchUrl(a, value) == Some(m)
            <==> FullForm(a, value, m) && forall other :: FullForm(a, value, other) ==> |m.name| <= |other.name|
  {
    forall other | FullForm(a, value, other)
      ensures MatchUrl(a, value).Some? && |MatchUrl(a, value).value.name| <= |other.name|
      ensures MatchUrl(a, value).value.owner == other.owner
    {
      var scheme, www :| IsHost(scheme, www) && value == Reference(scheme, www, other);
      MatchUrlOfReference(a, scheme, www, other);
      MatchPathIsShortest(a, other.owner + "/" + (other.name + other.suffix), true, other);
    }
    if MatchUrl(a, value).Some? {
      MatchUrlFits(a, value);
      if FullForm(a, value, m) && |m.name| == |MatchUrl(a, value).value.name| {
        SameLengthSameMatch(a, value, m);
      }
    }
  }

  lemma SameLengthSameMatch(a: Alphabet, value: string, m: Match)
    requires Sane(a) && FullForm(a, value, m)
    requires MatchUrl(a, value).Some? && |m.name| == |MatchUrl(a, value).value.name|
    ensures MatchUrl(a, value) == Some(m)
  {
    var scheme, www :| IsHost(scheme, www) && value == Reference(scheme, www, m);
    MatchUrlOfReference(a, scheme, www, m);
    SameLengthSamePath(a, m.owner + "/" + (m.name + m.suffix), true, m);
  }

  // ------------------------------------------------------------ canonical url

  lemma {:induction false} StripKeeps(a: Alphabet, s: string)
    requires s != "" && !a.space(s[0]) && !a.space(s[|s| - 1])
    ensures Strip(a, s) == s
  {
  }

  lemma {:induction false} StripRightStops(a: Alphabet, s: string)
    ensures var t := StripRight(a, s); t == "" || !a.space(t[|t| - 1])
    ensures StripRight(a, s) <= s
    decreases |s|
  {
    if s != "" && a.space(s[|s| - 1]) {
      StripRightStops(a, s[..|s| - 1]);
    }
  }

  lemma {:induction false} StripLeftStops(a: Alphabet, s: string)
    ensures var t := StripLeft(a, s); t == "" || !a.space(t[0])
    decreases |s|
  {
    if s != "" && a.space(s[0]) {
      StripLeftStops(a, s[1..]);
    }
  }

  lemma StripTwice(a: Alphabet, raw: string)
    ensures Strip(a, Strip(a, raw)) == Strip(a, raw)
  {
    StripLeftStops(a, raw);
    StripRightStops(a, StripLeft(a, raw));
    if Strip(a, raw) != "" {
      StripKeeps(a, Strip(a, raw));
    }
  }

  lemma UrlIsReference(a: Alphabet, owner: string, name: string)
    requires Sane(a)
    ensures Url(owner, name) == Reference("https://", "", Match(owner, name, ".git"))
    ensures Strip(a, Url(owner, name)) == Url(owner, name)
  {
    HostParts(owner + "/" + (name + ".git"));
    var url := Url(owner, name);
    assert url[0] == 'h' && url[|url| - 1] == 't';
    StripKeeps(a, url);
  }

  lemma HostParts(path: string)
    ensures "https://github.com/" + path == "https://" + ("" + ("github.com/" + path))
  {
    assert "" + ("github.com/" + path) == "github.com/" + path;
    assert "https://github.com/" == "https://" + "github.com/";
  }

  /** Whatever the name, `.git` after it is read as the suffix and all before it as
      the name. */
  lemma SuffixIsFound(a: Alphabet, owner: string, name: string)
    requires Sane(a) && IsName(a, owner) && IsName(a, name)
    ensures MatchPath(a, owner + "/" + (name + ".git"), true) == Some(Match(owner, name, ".git"))
  {
    var m := Match(owner, name, ".git");
    var s := owner + "/" + (name + ".git");
    MatchPathIsShortest(a, s, true, m);
    MatchPathFits(a, s, true);
    var found := MatchPath(a, s, true).value;
    var rest := name + ".git";
    SlashEndsOwner(a, owner, rest);
    assert found.name + found.suffix == rest;
    assert rest[|rest| - 1] == 't';
    assert found.suffix != "" && found.suffix[|found.suffix| - 1] == 't';
    assert rest[..|name|] == name;
  }

  /** Parsing is a canonicaliser: the url it produces parses to the same source. */
  lemma ParsingIsIdempotent(a: Alphabet, raw: string)
    requires Sane(a)
    ensures var source := ParseRepoSource(a, raw);
      source.Some? ==> ParseRepoSource(a, source.value.url) == source
  {
    var value := Strip(a, raw);
    if MatchValue(a, value).Some? {
      var m := MatchValue(a, value).value;
      ValueFits(a, value);
      UrlIsReference(a, m.owner, m.name);
      MatchUrlOfReference(a, "https://", "", Match(m.owner, m.name, ".git"));
      SuffixIsFound(a, m.owner, m.name);
    }
  }

  lemma ValueFits(a: Alphabet, value: string)
    requires MatchValue(a, value).Some?
    ensures var m := MatchValue(a, value).value;
      IsName(a, m.owner) && IsName(a, m.name) && (MatchUrl(a, value).None? ==> Fits(a, value, false, m))
  {
    if MatchUrl(a, value).Some? {
      MatchUrlFits(a, value);
    } else {
      MatchPathFits(a, value, false);
    }
  }

  /** Urls and paths are never read as short references: they are accepted exactly
      when they have the full form. */
  lemma UrlsAndPathsNeedTheHost(a: Alphabet, raw: string)
    requires Sane(a)
    requires var value := Strip(a, raw);
      value == "" || value[0] == '/' || value[0] == '.' || value[0] == '~' || Contains(value, "://")
    ensures ParseRepoSource(a, raw).Some? <==> exists m :: FullForm(a, Strip(a, raw), m)
  {
    var value := Strip(a, raw);
    if m :| FullForm(a, value, m) {
      var scheme, www :| IsHost(scheme, www) && value == Reference(scheme, www, m);
      MatchUrlOfReference(a, scheme, www, m);
      MatchPathIsShortest(a, m.owner + "/" + (m.name + m.suffix), true, m);
    }
    if MatchUrl(a, value).Some? {
      MatchUrlFits(a, value);
    }
  }

  // ------------------------------------------------------ the whole parser

  /** The full form, with the shortest name. */
  ghost predicate IsFull(a: Alphabet, value: string, m: Match) {
    FullForm(a, value, m) && forall other :: FullForm(a, value, other) ==> |m.name| <= |other.name|
  }

  /** Owner, slash and the shortest name, with at most `.git` after it. */
  ghost predicate IsShort(a: Alphabet, value: string, m: Match) {
    Fits(a, value, false, m) && forall other :: Fits(a, value, false, other) ==> |m.name| <= |other.name|
  }

  /** Neither a url of any scheme nor a path. */
  predicate IsPlain(value: string) {
    value != "" && !Contains(value, "://") && value[0] != '/' && value[0] != '.' && value[0] != '~'
  }

  /** The parser answers with owner o and name n exactly when the stripped value has
      the full form with that owner and shortest name, or, having no full form and
      being neither url nor path, the short one; the url is their canonical one. */
  lemma {:induction false} ParsesExactly(a: Alphabet, raw: string, s: Source)
    requires Sane(a)
    ensures var value := Strip(a, raw);
      ParseRepoSource(a, raw) == Some(s)
      <==> && s.url == Url(s.owner, s.name)
           && ((exists suffix :: IsFull(a, value, Match(s.owner, s.name, suffix)))
               || ((forall m :: !FullForm(a, value, m)) && IsPlain(value)
                   && exists suffix :: IsShort(a, value, Match(s.owner, s.name, suffix))))
  {
    var value := Strip(a, raw);
    forall suffix ensures IsFull(a, value, Match(s.owner, s.name, suffix)) <==> MatchUrl(a, value) == Some(Match(s.owner, s.name, suffix)) {
      MatchUrlIsThePattern(a, value, Match(s.owner, s.name, suffix));
    }
    forall suffix ensures IsShort(a, value, Match(s.owner, s.name, suffix)) <==> MatchPath(a, value, false) == Some(Match(s.owner, s.name, suffix)) {
      MatchPathIsThePattern(a, value, false, Match(s.owner, s.name, suffix));
    }
    NoMatchNoForm(a, value);
    if ParseRepoSource(a, raw) == Some(s) {
      var m := MatchValue(a, value).value;
      assert m == Match(s.owner, s.name, m.suffix);
    }
  }

  lemma NoMatchNoForm(a: Alphabet, value: string)
    requires Sane(a)
    ensures MatchUrl(a, value).None? <==> forall m :: !FullForm(a, value, m)
  {
    if m :| FullForm(a, value, m) {
      var scheme, www :| IsHost(scheme, www) && value == Reference(scheme, www, m);
      MatchUrlOfReference(a, scheme, www, m);
      MatchPathIsShortest(a, m.owner + "/" + (m.name + m.suffix), true, m);
    }
    if MatchUrl(a, value).Some? {
      MatchUrlFits(a, value);
    }
  }

  /** Every canonical url parses to its own owner and name, in their places. */
  lemma CanonicalUrlParses(a: Alphabet, owner: string, name: string)
    requires Sane(a) && IsName(a, owner) && IsName(a, name)
    ensures ParseRepoSource(a, Url(owner, name)) == Some(Source(Url(owner, name), owner, name))
  {
    UrlIsReference(a, owner, name);
    MatchUrlOfReference(a, "https://", "", Match(owner, name, ".git"));
    SuffixIsFound(a, owner, name);
  }

  /** Stripping takes the white space off both ends and nothing else. */
  lemma {:induction false} StripsExactly(a: Alphabet, raw: string) returns (before: string, after: string)
    ensures raw == before + Strip(a, raw) + after
    ensures forall i :: 0 <= i < |before| ==> a.space(before[i])
    ensures forall i :: 0 <= i < |after| ==> a.space(after[i])
    ensures Strip(a, raw) != "" ==> !a.space(Strip(a, raw)[0]) && !a.space(Strip(a, raw)[|Strip(a, raw)| - 1])
  {
    before := StripsLeft(a, raw);
    var left := StripLeft(a, raw);
    after := StripsRight(a, left);
    StripLeftStops(a, raw);
    StripRightStops(a, left);
    assert left == Strip(a, raw) + after;
    assert raw == before + (Strip(a, raw) + after);
  }

  lemma {:induction false} StripsLeft(a: Alphabet, s: string) returns (before: string)
    ensures s == before + StripLeft(a, s) && forall i :: 0 <= i < |before| ==> a.space(before[i])
    decreases |s|
  {
    before := "";
    if s != "" && a.space(s[0]) {
      var rest := StripsLeft(a, s[1..]);
      before := [s[0]] + rest;
    }
  }

  lemma {:induction false} StripsRight(a: Alphabet, s: string) returns (after: string)
    ensures s == StripRight(a, s) + after && forall i :: 0 <= i < |after| ==> a.space(after[i])
    decreases |s|
  {
    after := "";
    if s != "" && a.space(s[|s| - 1]) {
      var rest := StripsRight(a, s[..|s| - 1]);
      after := rest + [s[|s| - 1]];
    }
  }

  /** Trimming takes every slash off the end and nothing else. */
  lemma {:induction false} TrimsEverySlash(s: string) returns (after: string)
    ensures s == TrimSlashes(s) + after && forall i :: 0 <= i < |after| ==> after[i] == '/'
    ensures TrimSlashes(s) != "" ==> TrimSlashes(s)[|TrimSlashes(s)| - 1] != '/'
    decreases |s|
  {
    after := "";
    if s != "" && s[|s| - 1] == '/' {
      var rest := TrimsEverySlash(s[..|s| - 1]);
      after := rest + "/";
    }
  }

  /** Letters, digits and underscores make names, and names may be joined by dots,
      dashes and underscores; a slash is part of none. */
  lemma NamesAreMadeOf(a: Alphabet, x: string, y: string)
    requires Sane(a)
    ensures x != "" && (forall i :: 0 <= i < |x| ==> a.word(x[i])) ==> IsName(a, x)
    ensures IsName(a, x) && IsName(a, y) ==> IsName(a, x + "-" + y) && IsName(a, x + "." + y) && IsName(a, x + "_" + y)
    ensures !IsName(a, x + "/" + y) && !IsName(a, "")
  {
    assert (x + "/" + y)[|x|] == '/' && !IsNameChar(a, '/');
  }

  /** Every way of writing a reference in full, whatever white space is around it,
      parses to the one canonical source; dots and dashes are part of names. */
  lemma {:induction false} EveryFullFormParses(a: Alphabet, raw: string, scheme: string, www: string, m: Match)
    requires Sane(a) && IsHost(scheme, www) && IsName(a, m.owner) && IsName(a, m.name) && IsSuffix(m.suffix, true)
    requires !EndsWith(m.name, ".git") && Strip(a, raw) == Reference(scheme, www, m)
    ensures ParseRepoSource(a, raw) == Some(Source(Url(m.owner, m.name), m.owner, m.name))
  {
    MatchUrlOfReference(a, scheme, www, m);
    ShortestIsWhole(a, m, true);
  }

  /** And the short one, with or without `.git`, unless its owner starts with a dot. */
  lemma {:induction false} EveryShortFormParses(a: Alphabet, raw: string, m: Match)
    requires Sane(a) && IsName(a, m.owner) && IsName(a, m.name) && IsSuffix(m.suffix, false)
    requires !EndsWith(m.name, ".git") && Strip(a, raw) == m.owner + "/" + (m.name + m.suffix)
    ensures m.owner[0] != '.' ==> ParseRepoSource(a, raw) == Some(Source(Url(m.owner, m.name), m.owner, m.name))
    ensures m.owner[0] == '.' ==> ParseRepoSource(a, raw) == None
  {
    var value := Strip(a, raw);
    ShortestIsWhole(a, m, false);
    OneSlash(a, value, m);
    ShortIsNotFull(a, value, |m.owner|);
    assert value[0] == m.owner[0] && IsNameChar(a, value[0]);
  }

  lemma OneSlash(a: Alphabet, value: string, m: Match)
    requires Sane(a) && IsName(a, m.owner) && IsName(a, m.name) && IsSuffix(m.suffix, false)
    requires value == m.owner + "/" + (m.name + m.suffix)
    ensures forall i :: 0 <= i < |value| && i != |m.owner| ==> value[i] != '/'
    ensures |m.owner| < |value| && value[|m.owner|] == '/'
    ensures !Contains(value, "://") && !("https://" <= value) && !("http://" <= value)
  {
    var rest := m.name + m.suffix;
    NamesAreClear(a, m.owner);
    NamesAreClear(a, m.name);
    assert IsClear(".git") && IsClear("");
    ClearConcat(m.name, m.suffix);
    assert forall i :: 0 <= i < |m.owner| ==> value[i] == m.owner[i];
    assert forall i :: |m.owner| < i < |value| ==> value[i] == rest[i - |m.owner| - 1];
    NoColonNoScheme(value);
  }

  predicate IsClear(s: string) {
    forall i :: 0 <= i < |s| ==> s[i] != '/' && s[i] != ':'
  }

  lemma NamesAreClear(a: Alphabet, s: string)
    requires Sane(a) && IsName(a, s)
    ensures IsClear(s)
  {
    assert forall i :: 0 <= i < |s| ==> IsNameChar(a, s[i]);
  }

  lemma ClearConcat(s: string, t: string)
    requires IsClear(s) && IsClear(t)
    ensures IsClear(s + t)
  {
  }

  lemma NoColonNoScheme(value: string)
    requires forall i :: 0 <= i < |value| ==> value[i] != ':'
    ensures !Contains(value, "://") && !("https://" <= value) && !("http://" <= value)
  {
    forall i: nat ensures !OccursAt(value, "://", i) {
      var part := if i + 3 <= |value| then value[i..i + 3] else "";
      assert part != "" ==> part[0] == value[i];
    }
    var colon, colon' := "https://"[5], "http://"[4];
    assert colon == ':' && colon' == ':';
  }

  /** With a single slash there is none left for the owner after the host's. */
  lemma ShortIsNotFull(a: Alphabet, value: string, slash: nat)
    requires slash < |value| && value[slash] == '/'
    requires forall i :: 0 <= i < |value| && i != slash ==> value[i] != '/'
    requires !("https://" <= value) && !("http://" <= value)
    ensures MatchUrl(a, value).None?
  {
    var t := RemovePrefix(WithoutScheme(value), "www.");
    var cut := |value| - |t|;
    assert t == value[cut..];
    if "github.com/" <= t {
      assert t[10] == '/' && value[cut + 10] == '/';
      assert forall i :: 0 <= i < |t| - 11 ==> t[11..][i] == value[cut + 11 + i];
    }
  }

  lemma {:induction false} ShortestIsWhole(a: Alphabet, m: Match, full: bool)
    requires Sane(a) && IsName(a, m.owner) && IsName(a, m.name) && IsSuffix(m.suffix, full) && !EndsWith(m.name, ".git")
    ensures MatchPath(a, m.owner + "/" + (m.name + m.suffix), full) == Some(m)
  {
    var s := m.owner + "/" + (m.name + m.suffix);
    MatchPathIsShortest(a, s, full, m);
    MatchPathFits(a, s, full);
    var found := MatchPath(a, s, full).value;
    var rest := m.name + m.suffix;
    SlashEndsOwner(a, m.owner, rest);
    SlashEndsOwner(a, found.owner, found.name + found.suffix);
    assert found.name + found.suffix == rest;
    SameSplit(a, m, found, full);
  }

  lemma {:induction false} SameSplit(a: Alphabet, m: Match, found: Match, full: bool)
    requires Sane(a) && IsName(a, m.name) && IsName(a, found.name) && IsSuffix(m.suffix, full) && IsSuffix(found.suffix, full)
    requires found.name + found.suffix == m.name + m.suffix && |found.name| <= |m.name| && !EndsWith(m.name, ".git")
    ensures found.name == m.name && found.suffix == m.suffix
  {
    var rest := m.name + m.suffix;
    var d := |m.name| - |found.name|;
    if d > 0 {
      var last := m.name[|m.name| - 1];
      assert IsNameChar(a, last) && last == rest[|m.name| - 1] == found.suffix[d - 1];
      assert found.suffix == m.name[|found.name|..] + m.suffix by {
        assert rest[|found.name|..] == found.suffix;
      }
      assert m.name[|m.name| - d..] == found.suffix[..d];
      SuffixParts(found.suffix, d, m.suffix);
      assert false;
    } else {
      assert rest[..|m.name|] == m.name && rest[|m.name|..] == m.suffix && rest[..|m.name|] == found.name;
      assert rest[|found.name|..] == found.suffix;
    }
  }

  /** What is left of one suffix after some of it went to the name is no suffix,
      unless that part was `.git` or ended in a slash. */
  lemma SuffixParts(whole: string, d: nat, rest: string)
    requires IsSuffix(whole, true) && IsSuffix(rest, true) && 0 < d <= |whole| && whole[d..] == rest
    ensures whole[..d] == ".git" || whole[d - 1] == '/'
  {
    SuffixEnd(whole);
    SuffixEnd(rest);
    var tail := whole[d..];
    assert tail != "" ==> tail[|tail| - 1] == whole[|whole| - 1];
    assert whole == ".git/" ==> whole[..4] == ".git";
  }

  lemma SuffixEnd(x: string)
    requires IsSuffix(x, true)
    ensures x != "" ==> x[|x| - 1] == (if |x| == 4 then 't' else '/') && (|x| == 1 || |x| == 4 || |x| == 5)
  {
  }

  // ------------------------------------------------------------ allowlist key

  /** The one long form whose key is not its canonical url's: a repository called
      `.git`, written without a further suffix. */
  predicate BareGit(m: Match) {
    m.name == ".git" && (m.suffix == "" || m.suffix == "/")
  }

  lemma {:induction false} TrimOne(s: string, slash: string)
    requires s != "" && s[|s| - 1] != '/' && (slash == "" || slash == "/")
    ensures TrimSlashes(s + slash) == s
  {
    if slash == "" {
      assert s + slash == s;
    } else {
      assert (s + slash)[..|s|] == s;
    }
  }

  lemma NameEndsInGit(a: Alphabet, before: string, name: string)
    requires Sane(a) && IsName(a, name)
    ensures EndsWith(before + "/" + name, ".git") <==> EndsWith(name, ".git")
    ensures EndsWith(name, ".git") ==> RemoveSuffix(before + "/" + name, ".git") == before + "/" + RemoveSuffix(name, ".git")
  {
    var s := before + "/" + name;
    if |name| >= 4 {
      assert s[|s| - 4..] == name[|name| - 4..];
      assert s[..|s| - 4] == before + "/" + name[..|name| - 4];
    } else {
      assert |s| >= 4 ==> s[|s| - 1 - |name|] == '/' && s[|s| - 4..][3 - |name|] == '/';
      assert '/' !in ".git";
    }
  }

  function Kept(m: Match): string {
    if BareGit(m) then "" else m.name
  }

  lemma OnlyBareGitEndsInGit(a: Alphabet, s: string)
    requires MatchPath(a, s, true).Some?
    ensures var m := MatchPath(a, s, true).value;
      (m.suffix == "" || m.suffix == "/") && EndsWith(m.name, ".git") ==> m.name == ".git"
  {
    var m := MatchPath(a, s, true).value;
    var rest := s[FirstSlash(s) + 1..];
    if (m.suffix == "" || m.suffix == "/") && EndsWith(m.name, ".git") && |m.name| > 4 {
      var shorter := |m.name| - 4;
      assert rest[shorter..] == m.name[shorter..] + m.suffix;
      assert ".git" + "/" == ".git/" && ".git" + "" == ".git";
      NameEndIsShortest(a, rest, true, 0, shorter);
      assert false;
    }
  }

  /** Trimming and cutting the suffix, before the host comes off. */
  lemma {:induction false} KeyTail(a: Alphabet, head: string, m: Match)
    requires Sane(a) && IsName(a, m.name) && IsSuffix(m.suffix, true)
    requires (m.suffix == "" || m.suffix == "/") && EndsWith(m.name, ".git") ==> m.name == ".git"
    ensures RemoveSuffix(TrimSlashes(head + "/" + (m.name + m.suffix)), ".git") == head + "/" + Kept(m)
  {
    var git := if m.suffix == "" || m.suffix == "/" then "" else ".git";
    var slash := if m.suffix == "" || m.suffix == ".git" then "" else "/";
    var name := m.name + git;
    assert m.suffix == git + slash;
    assert head + "/" + (m.name + m.suffix) == (head + "/" + name) + slash;
    assert git == ".git" ==> a.word('g') && a.word('i') && a.word('t');
    assert IsName(a, name) && IsNameChar(a, name[|name| - 1]);
    TrimOne(head + "/" + name, slash);
    CutGit(a, head, m, git);
  }

  lemma CutGit(a: Alphabet, head: string, m: Match, git: string)
    requires Sane(a) && IsName(a, m.name) && IsName(a, m.name + git)
    requires git == if m.suffix == "" || m.suffix == "/" then "" else ".git"
    requires git == "" && EndsWith(m.name, ".git") ==> m.name == ".git"
    ensures RemoveSuffix(head + "/" + (m.name + git), ".git") == head + "/" + Kept(m)
  {
    var name := m.name + git;
    NameEndsInGit(a, head, name);
    if git == ".git" {
      assert name[|name| - 4..] == ".git" && name[..|name| - 4] == m.name;
    } else {
      assert name == m.name;
      assert EndsWith(".git", ".git");
    }
  }

  lemma Regrouped(scheme: string, www: string, owner: string, tail: string)
    ensures scheme + (www + ("github.com/" + (owner + "/" + tail)))
            == (scheme + (www + ("github.com/" + owner))) + "/" + tail
  {
    var host := "github.com/";
    assert host + (owner + "/" + tail) == (host + owner) + "/" + tail;
    assert www + ((host + owner) + "/" + tail) == (www + (host + owner)) + "/" + tail;
    assert scheme + ((www + (host + owner)) + "/" + tail) == (scheme + (www + (host + owner))) + "/" + tail;
  }

  lemma KeyOfReference(a: Alphabet, scheme: string, www: string, m: Match)
    requires Sane(a) && IsHost(scheme, www) && IsName(a, m.name) && IsSuffix(m.suffix, true)
    requires (m.suffix == "" || m.suffix == "/") && EndsWith(m.name, ".git") ==> m.name == ".git"
    requires Strip(a, Reference(scheme, www, m)) == Reference(scheme, www, m)
    ensures KeyBeforeLower(a, Reference(scheme, www, m)) == "github.com/" + (m.owner + "/" + Kept(m))
  {
    Regrouped(scheme, www, m.owner, m.name + m.suffix);
    KeyTail(a, scheme + (www + ("github.com/" + m.owner)), m);
    Regrouped(scheme, www, m.owner, Kept(m));
    DropsHost(scheme, www, m.owner + "/" + Kept(m));
  }

  lemma KeyOfUrl(a: Alphabet, owner: string, name: string)
    requires Sane(a) && IsName(a, name)
    ensures KeyBeforeLower(a, Url(owner, name)) == "github.com/" + (owner + "/" + name)
  {
    UrlIsReference(a, owner, name);
    KeyOfReference(a, "https://", "", Match(owner, name, ".git"));
  }

  /** A short reference's key is a part of owner, slash and name. */
  lemma KeyOfShortForm(a: Alphabet, value: string, m: Match) returns (before: string, after: string)
    requires Sane(a) && Fits(a, value, false, m) && Strip(a, value) == value
    ensures m.owner + "/" + m.name == before + KeyBeforeLower(a, value) + after
  {
    assert IsNameChar(a, m.name[|m.name| - 1]);
    assert value[|value| - 1] == if m.suffix == "" then m.name[|m.name| - 1] else 't';
    TrimOne(value, "");
    assert value + "" == value;
    var v := RemoveSuffix(value, ".git");
    after := SuffixGone(m.owner + "/" + m.name, m.suffix, value);
    before := PrefixesGone(v);
    assert KeyBeforeLower(a, value) == RemovePrefix(RemovePrefix(RemovePrefix(v, "https://"), "http://"), "www.");
  }

  lemma SuffixGone(path: string, suffix: string, value: string) returns (after: string)
    requires (suffix == "" || suffix == ".git") && value == path + suffix
    ensures path == RemoveSuffix(value, ".git") + after
  {
    if suffix == ".git" {
      assert value[|value| - 4..] == ".git" && value[..|value| - 4] == path;
      after := "";
    } else {
      after := path[|RemoveSuffix(value, ".git")|..];
    }
  }

  lemma PrefixesGone(v: string) returns (before: string)
    ensures v == before + RemovePrefix(RemovePrefix(RemovePrefix(v, "https://"), "http://"), "www.")
  {
    var v1 := RemovePrefix(v, "https://");
    var v2 := RemovePrefix(v1, "http://");
    var v3 := RemovePrefix(v2, "www.");
    var cut := |v| - |v3|;
    assert v1 == v[|v| - |v1|..] && v2 == v1[|v1| - |v2|..] && v3 == v2[|v2| - |v3|..];
    before := v[..cut];
    assert v3 == v[cut..];
  }

  /** Strictly shorter text stays so under lower-casing, wherever it was cut out. */
  lemma LowerIsShorter(a: Alphabet, whole: string, before: string, part: string, after: string)
    requires LowersEach(a) && whole == before + part + after && before + after != ""
    ensures |a.lower(part)| < |a.lower(whole)|
  {
    assert |a.lower(before + part + after)| == |a.lower(before + part)| + |a.lower(after)|;
    assert |a.lower(before + part)| == |a.lower(before)| + |a.lower(part)|;
    assert before != "" || after != "";
  }

  /** The key an accepted reference is compared by is its canonical url's exactly when
      it names the host and is not the bare `.git`; lower-casing does not make up the
      difference. */
  lemma KeyAgreesExactly(a: Alphabet, raw: string)
    requires Sane(a) && LowersEach(a) && ParseRepoSource(a, raw).Some?
    ensures var value := Strip(a, raw);
      AllowlistKey(a, raw) == AllowlistKey(a, ParseRepoSource(a, raw).value.url)
      <==> MatchUrl(a, value).Some? && !BareGit(MatchValue(a, value).value)
  {
    var value := Strip(a, raw);
    var m := MatchValue(a, value).value;
    StripTwice(a, raw);
    assert KeyBeforeLower(a, raw) == KeyBeforeLower(a, value);
    ValueFits(a, value);
    KeyOfUrl(a, m.owner, m.name);
    if MatchUrl(a, value).Some? {
      FullFormKey(a, value, m);
      if BareGit(m) {
        BareGitKeyIsShorter(a, m.owner);
      }
    } else {
      var before, after := KeyOfShortForm(a, value, m);
      ShortKeyIsShorter(a, m, before, KeyBeforeLower(a, value), after);
    }
  }

  lemma FullFormKey(a: Alphabet, value: string, m: Match)
    requires Sane(a) && MatchUrl(a, value) == Some(m) && Strip(a, value) == value
    ensures KeyBeforeLower(a, value) == "github.com/" + (m.owner + "/" + Kept(m))
  {
    MatchUrlFits(a, value);
    OnlyBareGitEndsInGit(a, RemovePrefix(WithoutScheme(value), "www.")[11..]);
    var scheme, www :| IsHost(scheme, www) && value == Reference(scheme, www, m);
    KeyOfReference(a, scheme, www, m);
  }

  lemma BareGitKeyIsShorter(a: Alphabet, owner: string)
    requires LowersEach(a)
    ensures a.lower("github.com/" + (owner + "/" + "")) != a.lower("github.com/" + (owner + "/" + ".git"))
  {
    var part, whole := "github.com/" + (owner + "/" + ""), "github.com/" + (owner + "/" + ".git");
    assert whole == "" + part + ".git";
    LowerIsShorter(a, whole, "", part, ".git");
  }

  lemma ShortKeyIsShorter(a: Alphabet, m: Match, before: string, key: string, after: string)
    requires LowersEach(a) && m.owner + "/" + m.name == before + key + after
    ensures a.lower(key) != a.lower("github.com/" + (m.owner + "/" + m.name))
  {
    var whole := "github.com/" + (m.owner + "/" + m.name);
    assert whole == ("github.com/" + before) + key + after;
    LowerIsShorter(a, whole, "github.com/" + before, key, after);
  }

  /** Two repositories have one key exactly when they differ in case at most. */
  lemma SameKeyUpToCase(a: Alphabet, owner: string, name: string, owner': string, name': string)
    requires Sane(a) && IsName(a, name) && IsName(a, name')
    ensures AllowlistKey(a, Url(owner, name)) == AllowlistKey(a, Url(owner', name'))
            <==> a.lower("github.com/" + (owner + "/" + name)) == a.lower("github.com/" + (owner' + "/" + name'))
  {
    KeyOfUrl(a, owner, name);
    KeyOfUrl(a, owner', name');
  }

  /** `_enforce_demo_allowlist`: an unset demo account is empty text. */
  function MayConnect(a: Alphabet, demo: string, email: string, allowlist: seq<string>, source: Source): bool {
    demo == "" || email != demo || allowlist == []
    || exists i :: 0 <= i < |allowlist| && AllowlistKey(a, allowlist[i]) == AllowlistKey(a, source.url)
  }

  /** An entry that lists a repository: a full reference other than the bare `.git`. */
  ghost predicate Lists(a: Alphabet, entry: string, s: Source) {
    && ParseRepoSource(a, entry) == Some(s)
    && MatchUrl(a, Strip(a, entry)).Some? && !BareGit(MatchUrl(a, Strip(a, entry)).value)
  }

  /** With a list of such entries, the demo account may connect exactly the listed
      repositories, up to case; any other account may connect anything. */
  lemma {:induction false} DemoConnectsTheListed(a: Alphabet, demo: string, email: string, allowlist: seq<string>, listed: seq<Source>, s: Source)
    requires Sane(a) && LowersEach(a) && demo != "" && allowlist != []
    requires |listed| == |allowlist| && forall i :: 0 <= i < |allowlist| ==> Lists(a, allowlist[i], listed[i])
    requires IsName(a, s.name) && s.url == Url(s.owner, s.name)
    ensures email != demo ==> MayConnect(a, demo, email, allowlist, s)
    ensures MayConnect(a, demo, demo, allowlist, s)
            <==> exists i :: 0 <= i < |listed|
                   && a.lower("github.com/" + (listed[i].owner + "/" + listed[i].name))
                      == a.lower("github.com/" + (s.owner + "/" + s.name))
  {
    forall i | 0 <= i < |allowlist|
      ensures AllowlistKey(a, allowlist[i]) == AllowlistKey(a, s.url)
              <==> a.lower("github.com/" + (listed[i].owner + "/" + listed[i].name))
                   == a.lower("github.com/" + (s.owner + "/" + s.name))
    {
      assert Lists(a, allowlist[i], listed[i]);
      KeyAgreesExactly(a, allowlist[i]);
      ValueFits(a, Strip(a, allowlist[i]));
      SameKeyUpToCase(a, listed[i].owner, listed[i].name, s.owner, s.name);
    }
  }

  // ---------------------------------------------------------------- workspace

  /** After the first character, no underscore is doubled or last. */
  predicate KeepsApart(owner: string) {
    forall i :: 0 < i < |owner| ==> !RunsOn(owner, i)
  }

  /** An underscore that another one follows, if only the separator's. */
  predicate RunsOn(owner: string, i: nat)
    requires i < |owner|
  {
    owner[i] == '_' && (i + 1 < |owner| ==> owner[i + 1] == '_')
  }

  lemma WorkspaceParts(owner: string, name: string, i: nat)
    ensures var w := owner + "__" + name;
      && (i < |owner| ==> w[i] == owner[i])
      && w[|owner|] == '_' && w[|owner| + 1] == '_'
  {
  }

  lemma NoShorterOwner(s: Source, t: Source)
    requires s.owner != "" && Workspace(s) == Workspace(t) && KeepsApart(t.owner)
    ensures |s.owner| >= |t.owner|
  {
    var k, w := |s.owner|, Workspace(s);
    assert k > 0 && w[k] == '_' && w[k + 1] == '_';
    assert w == t.owner + "__" + t.name;
    if k < |t.owner| {
      NotWithinOwner(t.owner, t.name, k);
    }
  }

  lemma NotWithinOwner(owner: string, name: string, k: nat)
    requires KeepsApart(owner) && 0 < k < |owner|
    ensures var w := owner + "__" + name; w[k] != '_' || w[k + 1] != '_'
  {
    WorkspaceParts(owner, name, k);
    WorkspaceParts(owner, name, k + 1);
    assert !RunsOn(owner, k);
  }

  /** Two repositories share a directory only if they are the same, whenever neither
      owner has a doubled or trailing underscore after its first character; owners
      without any underscore in particular. No owner is empty. */
  lemma WorkspacesAreDistinct(s: Source, t: Source)
    requires s.owner != "" && t.owner != ""
    requires KeepsApart(s.owner) && KeepsApart(t.owner)
    ensures Workspace(s) == Workspace(t) <==> s.owner == t.owner && s.name == t.name
  {
    if Workspace(s) == Workspace(t) {
      NoShorterOwner(s, t);
      NoShorterOwner(t, s);
      var n := |s.owner|;
      assert Workspace(s)[..n] == s.owner && Workspace(t)[..n] == t.owner;
      assert Workspace(s)[n + 2..] == s.name && Workspace(t)[n + 2..] == t.name;
    }
  }

  lemma NoUnderscoreKeepsApart(owner: string)
    requires '_' !in owner
    ensures KeepsApart(owner)
  {
    assert forall i :: 0 <= i < |owner| ==> owner[i] in owner;
  }

  /** The condition is exact: the sources whose directory a shorter-named owner can
      share are the ones it excludes. */
  lemma SharedExactlyWhenUnderscored(a: Alphabet, s: Source)
    requires Sane(a) && IsName(a, s.owner) && IsName(a, s.name)
    ensures KeepsApart(s.owner)
            <==> forall t: Source :: IsName(a, t.owner) && IsName(a, t.name) && Workspace(t) == Workspace(s)
                                     ==> |t.owner| >= |s.owner|
  {
    if KeepsApart(s.owner) {
      forall t: Source | IsName(a, t.owner) && Workspace(t) == Workspace(s) ensures |t.owner| >= |s.owner| {
        NoShorterOwner(t, s);
      }
    } else {
      var i :| 0 < i < |s.owner| && RunsOn(s.owner, i);
      if i + 1 == |s.owner| {
        TrailingCollides(a, s);
      } else {
        DoubledCollides(a, s, i);
      }
    }
  }

  lemma TrailingCollides(a: Alphabet, s: Source)
    requires Sane(a) && IsName(a, s.owner) && IsName(a, s.name) && |s.owner| > 1 && s.owner[|s.owner| - 1] == '_'
    ensures var t := Source("", s.owner[..|s.owner| - 1], "_" + s.name);
      IsName(a, t.owner) && IsName(a, t.name) && Workspace(t) == Workspace(s)
  {
    var shorter := s.owner[..|s.owner| - 1];
    assert s.owner == shorter + "_";
    assert shorter + "_" + "__" + s.name == shorter + "__" + ("_" + s.name);
    assert a.word('_');
  }

  lemma DoubledCollides(a: Alphabet, s: Source, i: nat)
    requires Sane(a) && IsName(a, s.owner) && IsName(a, s.name) && 0 < i < |s.owner| - 1
    requires s.owner[i] == '_' && s.owner[i + 1] == '_'
    ensures var t := Source("", s.owner[..i], s.owner[i + 2..] + ("__" + s.name));
      IsName(a, t.owner) && IsName(a, t.name) && Workspace(t) == Workspace(s)
  {
    assert s.owner == s.owner[..i] + "__" + s.owner[i + 2..];
    assert a.word('_');
  }

  /** The form the allowlist key misses is accepted, for every owner. */
  lemma BareGitIsAccepted(a: Alphabet, owner: string)
    requires Sane(a) && IsName(a, owner)
    ensures MatchUrl(a, "github.com/" + (owner + "/" + ".git")) == Some(Match(owner, ".git", ""))
  {
    var m := Match(owner, ".git", "");
    BareGitPath(a, owner);
    MatchUrlOfReference(a, "", "", m);
    assert Reference("", "", m) == "github.com/" + (owner + "/" + (".git" + ""));
    assert ".git" + "" == ".git";
  }

  lemma BareGitPath(a: Alphabet, owner: string)
    requires Sane(a) && IsName(a, owner)
    ensures MatchPath(a, owner + "/" + (".git" + ""), true) == Some(Match(owner, ".git", ""))
  {
    var m := Match(owner, ".git", "");
    assert a.word('g') && a.word('i') && a.word('t');
    var s := owner + "/" + (".git" + "");
    MatchPathIsShortest(a, s, true, m);
    MatchPathFits(a, s, true);
    var found := MatchPath(a, s, true).value;
    SlashEndsOwner(a, owner, ".git" + "");
    assert ".git" + "" == ".git";
    SplitOfGit(found.name, found.suffix);
  }

  lemma SplitOfGit(name: string, suffix: string)
    requires name + suffix == ".git" && name != "" && IsSuffix(suffix, true)
    ensures name == ".git" && suffix == ""
  {
    assert (name + suffix)[3] == 't';
    if suffix == "" {
      assert name + "" == name;
    }
  }
}
