/**
 Canonicalisation of client-delivered Instagram URLs (crates/instagram-archive/src/permalink.rs).

 Besides the parser itself the module gives the accepted language as an independent grammar and
 proves that the parser accepts exactly that language with exactly that reading.
 */
module Permalink {
  import opened Prelude

  const SHORTCODE_MAX := 64

  datatype Kind = Post | Reel | Igtv

  datatype Error = Malformed | ForeignHost | NotAPermalink | UnsupportedAuthority | InvalidShortcode

  datatype Canonical = Canonical(url: string, kind: Kind, shortcode: string)

  function PathSegment(kind: Kind): string {
    match kind
    case Post => "p"
    case Reel => "reel"
    case Igtv => "tv"
  }

  function Url(kind: Kind, shortcode: string): string {
    "https://www.instagram.com/" + PathSegment(kind) + "/" + shortcode + "/"
  }

  // ---------------------------------------------------------------- characters

  predicate IsWhiteSpace(c: char) {
    || '\U{0009}' <= c <= '\U{000D}' || c == ' ' || c == '\U{0085}' || c == '\U{00A0}' || c == '\U{1680}'
    || '\U{2000}' <= c <= '\U{200A}' || c == '\U{2028}' || c == '\U{2029}' || c == '\U{202F}'
    || c == '\U{205F}' || c == '\U{3000}'
  }

  predicate IsControl(c: char) {
    c <= '\U{001F}' || '\U{007F}' <= c <= '\U{009F}'
  }

  /** ASCII white space other than the space is already a control character. */
  predicate InvalidCharacter(c: char) {
    c == ' ' || IsControl(c)
  }

  predicate Contains(s: string, p: char -> bool) {
    exists i :: 0 <= i < |s| && p(s[i])
  }

  function Lower(c: char): char {
    if 'A' <= c <= 'Z' then (c as int + 32) as char else c
  }

  function LowerAll(s: string): string {
    seq(|s|, i requires 0 <= i < |s| => Lower(s[i]))
  }

  predicate IsSlash(c: char) { c == '/' }
  predicate IsQueryStart(c: char) { c == '?' || c == '#' }
  predicate EndsAuthority(c: char) { IsSlash(c) || IsQueryStart(c) }
  predicate IsUserInfoOrPort(c: char) { c == '@' || c == ':' }

  predicate IsShortcodeCharacter(c: char) {
    '0' <= c <= '9' || 'A' <= c <= 'Z' || 'a' <= c <= 'z' || c == '_' || c == '-'
  }

  // ---------------------------------------------------------------- string functions

  function TrimStart(s: string): string {
    if s != [] && IsWhiteSpace(s[0]) then TrimStart(s[1..]) else s
  }

  function TrimEnd(s: string): string {
    if s != [] && IsWhiteSpace(s[|s| - 1]) then TrimEnd(s[..|s| - 1]) else s
  }

  function Trim(s: string): string {
    TrimEnd(TrimStart(s))
  }

  /** The first position whose character satisfies `p`, or the length. */
  function IndexWhere(s: string, p: char -> bool): (n: nat)
    ensures n <= |s|
    ensures forall i :: 0 <= i < n ==> !p(s[i])
    ensures n < |s| ==> p(s[n])
  {
    if s == [] || p(s[0]) then 0 else 1 + IndexWhere(s[1..], p)
  }

  predicate SeparatorAt(s: string, i: nat) {
    i + 3 <= |s| && s[i] == ':' && s[i + 1] == '/' && s[i + 2] == '/'
  }

  /** The first position of "://", or the length. */
  function SchemeEnd(s: string): (n: nat)
    ensures n <= |s|
    ensures n < |s| ==> SeparatorAt(s, n)
    ensures forall i :: 0 <= i < n ==> !SeparatorAt(s, i)
  {
    if s == [] then 0
    else if SeparatorAt(s, 0) then 0
    else
      assert forall i :: 1 <= i < |s| ==> SeparatorAt(s, i) == SeparatorAt(s[1..], i - 1);
      1 + SchemeEnd(s[1..])
  }

  function Split(s: string): (parts: seq<string>)
    ensures |parts| >= 1
    decreases |s|
  {
    var n := IndexWhere(s, IsSlash);
    if n == |s| then [s] else [s[..n]] + Split(s[n + 1..])
  }

  // ---------------------------------------------------------------- the parser

  const ACCEPTED_HOSTS: seq<string> := [
    "instagram.com", "www.instagram.com", "m.instagram.com", "l.instagram.com", "instagr.am", "www.instagr.am"
  ]

  predicate AcceptedHost(authority: string) {
    LowerAll(authority) in ACCEPTED_HOSTS
  }

  predicate AcceptedScheme(scheme: string) {
    LowerAll(scheme) == "http" || LowerAll(scheme) == "https"
  }

  function PathForm(segment: string): Option<Kind> {
    if segment == "p" then Some(Post)
    else if segment == "reel" || segment == "reels" then Some(Reel)
    else if segment == "tv" then Some(Igtv)
    else None
  }

  predicate ValidShortcode(code: string) {
    0 < |code| <= SHORTCODE_MAX && forall i :: 0 <= i < |code| ==> IsShortcodeCharacter(code[i])
  }

  function WithoutTrailing(parts: seq<string>): seq<string> {
    if |parts| > 1 && parts[|parts| - 1] == [] then parts[..|parts| - 1] else parts
  }

  function Segments(path: string): seq<string> {
    WithoutTrailing(Split(if path != [] && path[0] == '/' then path[1..] else path))
  }

  function ParsePath(path: string): Result<(Kind, string), Error> {
    var segments := Segments(path);
    if |segments| == 1 then
      Err(if PathForm(segments[0]).Some? then InvalidShortcode else NotAPermalink)
    else if |segments| == 2 || |segments| == 3 then
      var form, code := segments[|segments| - 2], segments[|segments| - 1];
      if PathForm(form).None? then Err(NotAPermalink)
      else if !ValidShortcode(code) then Err(InvalidShortcode)
      else Ok((PathForm(form).value, code))
    else Err(NotAPermalink)
  }

  /** The part after the authority: the path up to the query or fragment. */
  function ParseTail(tail: string): Result<Canonical, Error> {
    match ParsePath(tail[..IndexWhere(tail, IsQueryStart)])
    case Err(e) => Err(e)
    case Ok(parsed) => Ok(Canonical(Url(parsed.0, parsed.1), parsed.0, parsed.1))
  }

  /** The part after the scheme. */
  function ParseRest(rest: string): Result<Canonical, Error> {
    var end := IndexWhere(rest, EndsAuthority);
    var authority, tail := rest[..end], rest[end..];
    if authority == [] then Err(Malformed)
    else if Contains(authority, IsUserInfoOrPort) then Err(UnsupportedAuthority)
    else if !AcceptedHost(authority) then Err(ForeignHost)
    else ParseTail(tail)
  }

  function Canonicalize(input: string): Result<Canonical, Error> {
    var trimmed := Trim(input);
    if trimmed == [] || Contains(trimmed, InvalidCharacter) then Err(Malformed)
    else
      var n := SchemeEnd(trimmed);
      if n == |trimmed| || !AcceptedScheme(trimmed[..n]) then Err(Malformed)
      else ParseRest(trimmed[n + 3..])
  }

  // ---------------------------------------------------------------- the accepted language

  /** scheme://host/[prefix/]form/code[/][query-or-fragment] */
  datatype Shape = Shape(
    scheme: string,
    host: string,
    prefix: Option<string>,
    form: string,
    code: string,
    slash: bool,
    suffix: string
  )

  function Core(shape: Shape): string {
    shape.form + "/" + (if shape.slash then shape.code + "/" else shape.code)
  }

  function RelativePath(shape: Shape): string {
    if shape.prefix.Some? then shape.prefix.value + "/" + Core(shape) else Core(shape)
  }

  function RenderTail(shape: Shape): string {
    "/" + RelativePath(shape) + shape.suffix
  }

  function Render(shape: Shape): string {
    shape.scheme + "://" + (shape.host + RenderTail(shape))
  }

  predicate WellShaped(shape: Shape) {
    && AcceptedScheme(shape.scheme)
    && AcceptedHost(shape.host)
    && (shape.prefix.Some? ==> !Contains(shape.prefix.value, EndsAuthority))
    && PathForm(shape.form).Some?
    && ValidShortcode(shape.code)
    && (shape.suffix == [] || IsQueryStart(shape.suffix[0]))
    && !Contains(Render(shape), InvalidCharacter)
  }

  // ---------------------------------------------------------------- string lemmas

  lemma IndexWhereIs(s: string, p: char -> bool, n: nat)
    requires n <= |s|
    requires forall i :: 0 <= i < n ==> !p(s[i])
    requires n < |s| ==> p(s[n])
    ensures IndexWhere(s, p) == n
  {
  }

  predicate IsHostCharacter(c: char) {
    'a' <= c <= 'z' || c == '.'
  }

  lemma HostsArePlain(host: string, i: nat)
    requires host in ACCEPTED_HOSTS && i < |host|
    ensures IsHostCharacter(host[i])
  {
  }

  /** No character of an accepted host ends the authority or names a user or a port. */
  lemma HostCharacters(host: string)
    requires AcceptedHost(host)
    ensures host != [] && !Contains(host, EndsAuthority) && !Contains(host, IsUserInfoOrPort)
  {
    assert |LowerAll(host)| == |host|;
    forall i | 0 <= i < |host|
      ensures !EndsAuthority(host[i]) && !IsUserInfoOrPort(host[i])
    {
      HostsArePlain(LowerAll(host), i);
      assert LowerAll(host)[i] == Lower(host[i]);
    }
  }

  lemma SchemeCharacters(scheme: string)
    requires AcceptedScheme(scheme)
    ensures forall i :: 0 <= i < |scheme| ==> scheme[i] != ':'
    ensures |scheme| > 0 && !IsWhiteSpace(scheme[0])
  {
    assert |LowerAll(scheme)| == |scheme|;
    forall i | 0 <= i < |scheme|
      ensures scheme[i] != ':' && !IsWhiteSpace(scheme[i])
    {
      assert LowerAll(scheme)[i] == Lower(scheme[i]);
    }
  }

  lemma SchemeEndAt(scheme: string, rest: string)
    requires forall i :: 0 <= i < |scheme| ==> scheme[i] != ':'
    ensures SchemeEnd(scheme + "://" + rest) == |scheme|
  {
    var s := scheme + "://" + rest;
    assert SeparatorAt(s, |scheme|);
    assert forall i :: 0 <= i < |scheme| ==> !SeparatorAt(s, i);
  }

  lemma SplitOne(s: string)
    requires !Contains(s, IsSlash)
    ensures Split(s) == [s]
  {
    IndexWhereIs(s, IsSlash, |s|);
  }

  lemma SplitFirst(a: string, b: string)
    requires !Contains(a, IsSlash)
    ensures Split(a + "/" + b) == [a] + Split(b)
  {
    var s := a + "/" + b;
    IndexWhereIs(s, IsSlash, |a|);
    assert s[..|a|] == a;
    assert s[|a| + 1..] == b;
  }

  lemma SlashFree(form: string, code: string)
    requires PathForm(form).Some? && ValidShortcode(code)
    ensures !Contains(form, IsSlash) && !Contains(code, IsSlash)
    ensures !Contains(form, IsQueryStart) && !Contains(code, IsQueryStart)
    ensures form != [] && code != []
  {
  }

  lemma TrimIdentity(s: string)
    requires s != [] && !IsWhiteSpace(s[0]) && !IsWhiteSpace(s[|s| - 1])
    ensures Trim(s) == s
  {
  }

  // ---------------------------------------------------------------- path lemmas

  lemma SplitCore(shape: Shape)
    requires PathForm(shape.form).Some? && ValidShortcode(shape.code)
    ensures WithoutTrailing(Split(Core(shape))) == [shape.form, shape.code]
    ensures |Split(Core(shape))| >= 2
  {
    hide Split, IndexWhere, PathForm, ValidShortcode;
    SlashFree(shape.form, shape.code);
    if shape.slash {
      SplitFirst(shape.form, shape.code + "/");
      assert shape.code + "/" == shape.code + "/" + "";
      SplitFirst(shape.code, "");
      SplitOne("");
    } else {
      SplitFirst(shape.form, shape.code);
      SplitOne(shape.code);
    }
  }

  lemma RelativeSegments(shape: Shape)
    requires PathForm(shape.form).Some? && ValidShortcode(shape.code)
    requires shape.prefix.Some? ==> !Contains(shape.prefix.value, IsSlash)
    ensures WithoutTrailing(Split(RelativePath(shape))) ==
            (if shape.prefix.Some? then [shape.prefix.value] else []) + [shape.form, shape.code]
  {
    hide Split;
    SplitCore(shape);
    if shape.prefix.Some? { SplitFirst(shape.prefix.value, Core(shape)); }
  }

  lemma ParseRelative(shape: Shape)
    requires PathForm(shape.form).Some? && ValidShortcode(shape.code)
    requires shape.prefix.Some? ==> !Contains(shape.prefix.value, IsSlash)
    ensures ParsePath("/" + RelativePath(shape)) == Ok((PathForm(shape.form).value, shape.code))
  {
    hide Split, PathForm, ValidShortcode, RelativePath;
    RelativeSegments(shape);
    assert ("/" + RelativePath(shape))[1..] == RelativePath(shape);
  }

  lemma PathHasNoQuery(shape: Shape)
    requires WellShaped(shape)
    ensures !Contains("/" + RelativePath(shape), IsQueryStart)
  {
    SlashFree(shape.form, shape.code);
    forall i | 0 <= i < |RelativePath(shape)|
      ensures !IsQueryStart(RelativePath(shape)[i])
    {
    }
  }

  // ---------------------------------------------------------------- exactly the language

  function Reading(shape: Shape): Canonical
    requires PathForm(shape.form).Some?
  {
    Canonical(Url(PathForm(shape.form).value, shape.code), PathForm(shape.form).value, shape.code)
  }

  lemma TailAccepted(shape: Shape)
    requires WellShaped(shape)
    ensures ParseTail(RenderTail(shape)) == Ok(Reading(shape))
  {
    var path, tail := "/" + RelativePath(shape), RenderTail(shape);
    PathHasNoQuery(shape);
    assert forall i :: 0 <= i < |path| ==> tail[i] == path[i];
    IndexWhereIs(tail, IsQueryStart, |path|);
    assert tail[..|path|] == path;
    assert shape.prefix.Some? ==> !Contains(shape.prefix.value, IsSlash);
    ParseRelative(shape);
  }

  lemma RestAccepted(shape: Shape)
    requires WellShaped(shape)
    ensures ParseRest(shape.host + RenderTail(shape)) == Ok(Reading(shape))
  {
    var rest := shape.host + RenderTail(shape);
    HostCharacters(shape.host);
    assert rest[|shape.host|] == '/';
    assert forall i :: 0 <= i < |shape.host| ==> rest[i] == shape.host[i];
    IndexWhereIs(rest, EndsAuthority, |shape.host|);
    assert rest[..|shape.host|] == shape.host && rest[|shape.host|..] == RenderTail(shape);
    TailAccepted(shape);
  }

  /** Everything of the documented shape is accepted, with the kind and shortcode it spells. */
  lemma ShapeAccepted(input: string, shape: Shape)
    requires WellShaped(shape) && Trim(input) == Render(shape)
    ensures Canonicalize(input) == Ok(Reading(shape))
  {
    var s, rest := Render(shape), shape.host + RenderTail(shape);
    SchemeCharacters(shape.scheme);
    SchemeEndAt(shape.scheme, rest);
    assert s[..|shape.scheme|] == shape.scheme && s[|shape.scheme| + 3..] == rest;
    RestAccepted(shape);
  }

  lemma {:induction false} SplitJoins(s: string)
    ensures forall k :: 0 <= k < |Split(s)| ==> !Contains(Split(s)[k], IsSlash)
    ensures |Split(s)| == 1 ==> s == Split(s)[0]
    ensures |Split(s)| > 1 ==> exists r :: s == Split(s)[0] + "/" + r && Split(r) == Split(s)[1..]
    decreases |s|
  {
    var n := IndexWhere(s, IsSlash);
    if n < |s| {
      var r := s[n + 1..];
      SplitJoins(r);
      assert s == s[..n] + "/" + r;
      assert Split(s)[1..] == Split(r);
    }
  }

  /** A path that parses is a form and a shortcode, behind at most one other segment. */
  lemma PathShape(path: string) returns (shape: Shape)
    requires ParsePath(path).Ok? && path != [] && path[0] == '/' && !Contains(path, IsQueryStart)
    ensures PathForm(shape.form) == Some(ParsePath(path).value.0) && shape.code == ParsePath(path).value.1
    ensures ValidShortcode(shape.code)
    ensures shape.prefix.Some? ==> !Contains(shape.prefix.value, EndsAuthority)
    ensures path == "/" + RelativePath(shape)
  {
    hide Split, PathForm, ValidShortcode, IndexWhere;
    var parts := Split(path[1..]);
    var slash := |parts| > 1 && parts[|parts| - 1] == [];
    var segments := Segments(path);
    var form, code := segments[|segments| - 2], segments[|segments| - 1];
    SplitJoins(path[1..]);
    var core := path[1..];
    var prefix := None;
    if |segments| == 3 {
      core :| path[1..] == parts[0] + "/" + core && Split(core) == parts[1..];
      prefix := Some(parts[0]);
      assert forall i :: 0 <= i < |parts[0]| ==> parts[0][i] == path[1 + i];
    }
    shape := Shape("", "", prefix, form, code, slash, "");
    CoreOf(core, shape);
  }

  lemma CoreOf(core: string, shape: Shape)
    requires Split(core) == [shape.form, shape.code] + (if shape.slash then [""] else [])
    ensures core == Core(shape)
  {
    hide Split;
    SplitJoins(core);
    var r :| core == shape.form + "/" + r && Split(r) == Split(core)[1..];
    SplitJoins(r);
    if shape.slash {
      var e :| r == shape.code + "/" + e && Split(e) == Split(r)[1..];
      SplitJoins(e);
      assert e == "";
      assert r == shape.code + "/";
    }
  }

  predicate TailShaped(tail: string, shape: Shape) {
    && tail == RenderTail(shape)
    && PathForm(shape.form).Some? && ValidShortcode(shape.code)
    && (shape.prefix.Some? ==> !Contains(shape.prefix.value, EndsAuthority))
    && (shape.suffix == [] || IsQueryStart(shape.suffix[0]))
  }

  lemma TailShape(tail: string) returns (shape: Shape)
    requires ParseTail(tail).Ok? && (tail == [] || EndsAuthority(tail[0]))
    ensures TailShaped(tail, shape) && ParseTail(tail).value == Reading(shape)
  {
    hide Split, PathForm, ValidShortcode;
    var path := tail[..IndexWhere(tail, IsQueryStart)];
    if path == [] {
      SplitOne("");
      assert false;
    }
    shape := PathShape(path);
    shape := shape.(suffix := tail[|path|..]);
    assert tail == path + shape.suffix;
  }

  lemma RestShape(rest: string) returns (shape: Shape)
    requires ParseRest(rest).Ok?
    ensures TailShaped(RenderTail(shape), shape) && AcceptedHost(shape.host)
    ensures rest == shape.host + RenderTail(shape) && ParseRest(rest).value == Reading(shape)
  {
    hide PathForm, ValidShortcode, AcceptedHost, ParseTail, RelativePath;
    var end := IndexWhere(rest, EndsAuthority);
    shape := TailShape(rest[end..]);
    var tail := RenderTail(shape);
    SamePath(shape, shape.(host := rest[..end]));
    shape := shape.(host := rest[..end]);
  }

  lemma SamePath(a: Shape, b: Shape)
    requires a == b.(scheme := a.scheme, host := a.host)
    ensures RenderTail(a) == RenderTail(b)
  {
  }

  /** Whatever is accepted has the documented shape. */
  lemma AcceptedShape(input: string) returns (shape: Shape)
    requires Canonicalize(input).Ok?
    ensures WellShaped(shape) && Trim(input) == Render(shape) && Canonicalize(input).value == Reading(shape)
  {
    hide Trim, IndexWhere, PathForm, ValidShortcode, AcceptedHost, AcceptedScheme, ParseRest, RenderTail;
    var s := Trim(input);
    var n := SchemeEnd(s);
    shape := RestShape(s[n + 3..]);
    SamePath(shape, shape.(scheme := s[..n]));
    shape := shape.(scheme := s[..n]);
    assert s == s[..n] + "://" + s[n + 3..];
    assert Render(shape) == s;
  }

  /**
   The accepted language, both directions: an input is accepted as `c` exactly when it has a shape that reads
   as `c`.
   */
  lemma AcceptsExactlyTheShapes(input: string, c: Canonical)
    ensures Canonicalize(input) == Ok(c) <==>
            exists shape :: WellShaped(shape) && Trim(input) == Render(shape) && c == Reading(shape)
  {
    if Canonicalize(input) == Ok(c) {
      var shape := AcceptedShape(input);
    }
    if exists shape :: WellShaped(shape) && Trim(input) == Render(shape) && c == Reading(shape) {
      var shape :| WellShaped(shape) && Trim(input) == Render(shape) && c == Reading(shape);
      ShapeAccepted(input, shape);
    }
  }

  // ---------------------------------------------------------------- round trip

  function CanonicalShape(kind: Kind, code: string): Shape {
    Shape("https", "www.instagram.com", None, PathSegment(kind), code, true, "")
  }

  lemma Reassociate(a: string, b: string, c: string, slash: string, d: string, e: string)
    ensures a + b + (c + (slash + (d + slash + (e + slash)) + "")) == a + b + c + slash + d + slash + e + slash
  {
  }

  lemma CanonicalRender(kind: Kind, code: string)
    ensures Render(CanonicalShape(kind, code)) == Url(kind, code)
  {
    assert "https" + "://" + "www.instagram.com" + "/" == "https://www.instagram.com/";
    hide PathSegment;
    Reassociate("https", "://", "www.instagram.com", "/", PathSegment(kind), code);
  }

  lemma CanonicalScheme()
    ensures AcceptedScheme("https") && AcceptedHost("www.instagram.com")
  {
    assert LowerAll("https") == "https";
    assert LowerAll("www.instagram.com") == "www.instagram.com" == ACCEPTED_HOSTS[1];
  }

  lemma CanonicalCharacters(kind: Kind, code: string)
    requires ValidShortcode(code)
    ensures !Contains(Url(kind, code), InvalidCharacter) && Trim(Url(kind, code)) == Url(kind, code)
  {
    var url := Url(kind, code);
    forall i | 0 <= i < |url|
      ensures !InvalidCharacter(url[i])
    {
    }
    TrimIdentity(url);
  }

  /** The canonical URL of any kind and valid shortcode reads back as that kind and shortcode. */
  lemma CanonicalUrlReadsBack(kind: Kind, code: string)
    requires ValidShortcode(code)
    ensures Canonicalize(Url(kind, code)) == Ok(Canonical(Url(kind, code), kind, code))
  {
    CanonicalRender(kind, code);
    CanonicalScheme();
    CanonicalCharacters(kind, code);
    assert PathForm(PathSegment(kind)) == Some(kind);
    hide Canonicalize, AcceptedHost, AcceptedScheme, Render, Url, PathForm, ValidShortcode, Trim;
    ShapeAccepted(Url(kind, code), CanonicalShape(kind, code));
  }

  lemma AcceptedParts(input: string)
    requires Canonicalize(input).Ok?
    ensures
      var c := Canonicalize(input).value;
      ValidShortcode(c.shortcode) && c.url == Url(c.kind, c.shortcode)
  {
    hide Canonicalize, AcceptedHost, AcceptedScheme, Render, PathForm, ValidShortcode, Trim;
    var shape := AcceptedShape(input);
  }

  /** Canonicalising an accepted URL again returns the same kind, shortcode and URL. */
  lemma RoundTrip(input: string)
    ensures
      var read := Canonicalize(input);
      read.Ok? ==> Canonicalize(read.value.url) == read
  {
    hide *;
    if Canonicalize(input).Ok? {
      AcceptedParts(input);
      CanonicalUrlReadsBack(Canonicalize(input).value.kind, Canonicalize(input).value.shortcode);
    }
  }

  /** Two accepted inputs share a URL exactly when they share kind and shortcode. */
  lemma UrlIsIdentity(a: string, b: string)
    ensures
      var ra, rb := Canonicalize(a), Canonicalize(b);
      ra.Ok? && rb.Ok? ==>
        (ra.value.url == rb.value.url <==> ra.value.kind == rb.value.kind && ra.value.shortcode == rb.value.shortcode)
  {
    hide *;
    if Canonicalize(a).Ok? && Canonicalize(b).Ok? {
      RoundTrip(a);
      RoundTrip(b);
      AcceptedParts(a);
      AcceptedParts(b);
    }
  }
}
