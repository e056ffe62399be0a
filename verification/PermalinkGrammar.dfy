/**
 The accepted links as a grammar of its own, with its own tables of hosts, forms and characters, and
 why the others are refused (crates/instagram-archive/src/permalink.rs:90-198).
 */
module PermalinkGrammar {
  import opened Prelude
  import opened Permalink

  /** The same text up to the case of ASCII letters of the first. */
  predicate SpelledAs(text: string, name: string) {
    && |text| == |name|
    && (forall i :: 0 <= i < |text| ==>
          text[i] == name[i] || ('A' <= text[i] <= 'Z' && text[i] as int + 32 == name[i] as int))
  }

  /** instagram.com bare or under www, m or l; instagr.am bare or under www. */
  predicate NamesInstagram(host: string) {
    || SpelledAs(host, "instagram.com") || SpelledAs(host, "www.instagram.com") || SpelledAs(host, "m.instagram.com")
    || SpelledAs(host, "l.instagram.com") || SpelledAs(host, "instagr.am") || SpelledAs(host, "www.instagr.am")
  }

  predicate NamesForm(form: string, kind: Kind) {
    match kind
    case Post => form == "p"
    case Reel => form == "reel" || form == "reels"
    case Igtv => form == "tv"
  }

  predicate SpellsShortcode(code: string) {
    && 1 <= |code| <= 64
    && (forall i :: 0 <= i < |code| ==>
          || 'a' <= code[i] <= 'z' || 'A' <= code[i] <= 'Z' || '0' <= code[i] <= '9'
          || code[i] == '-' || code[i] == '_')
  }

  /** A link: scheme, host, at most one segment before the form, the shortcode, and anything after ? or #. */
  predicate Link(shape: Shape, kind: Kind, code: string) {
    && (SpelledAs(shape.scheme, "http") || SpelledAs(shape.scheme, "https"))
    && NamesInstagram(shape.host)
    && (shape.prefix.Some? ==> forall i :: 0 <= i < |shape.prefix.value| ==> shape.prefix.value[i] !in "/?#")
    && NamesForm(shape.form, kind)
    && shape.code == code && SpellsShortcode(code)
    && (shape.suffix == "" || shape.suffix[0] == '?' || shape.suffix[0] == '#')
    && (forall i :: 0 <= i < |Render(shape)| ==> Render(shape)[i] != ' ' && !IsControl(Render(shape)[i]))
  }

  function CanonicalText(kind: Kind, code: string): string {
    match kind
    case Post => "https://www.instagram.com/p/" + code + "/"
    case Reel => "https://www.instagram.com/reel/" + code + "/"
    case Igtv => "https://www.instagram.com/tv/" + code + "/"
  }

  predicate LowerText(name: string) {
    forall i :: 0 <= i < |name| ==> !('A' <= name[i] <= 'Z')
  }

  lemma SpellingIsLower(text: string, name: string)
    requires LowerText(name)
    ensures SpelledAs(text, name) <==> LowerAll(text) == name
  {
    if LowerAll(text) == name {
      forall i | 0 <= i < |text|
        ensures text[i] == name[i] || ('A' <= text[i] <= 'Z' && text[i] as int + 32 == name[i] as int)
      {
        assert LowerAll(text)[i] == Lower(text[i]);
      }
    }
  }

  lemma HostTable(host: string)
    ensures NamesInstagram(host) <==> AcceptedHost(host)
  {
    SpellingIsLower(host, "instagram.com");
    SpellingIsLower(host, "www.instagram.com");
    SpellingIsLower(host, "m.instagram.com");
    SpellingIsLower(host, "l.instagram.com");
    SpellingIsLower(host, "instagr.am");
    SpellingIsLower(host, "www.instagr.am");
    hide LowerAll, SpelledAs;
  }

  lemma SchemeTable(scheme: string)
    ensures SpelledAs(scheme, "http") || SpelledAs(scheme, "https") <==> AcceptedScheme(scheme)
  {
    SpellingIsLower(scheme, "http");
    SpellingIsLower(scheme, "https");
  }

  lemma UrlText(kind: Kind, code: string)
    ensures Url(kind, code) == CanonicalText(kind, code)
  {
  }

  lemma LinkIsWellShaped(shape: Shape, kind: Kind, code: string)
    ensures Link(shape, kind, code) <==> WellShaped(shape) && PathForm(shape.form) == Some(kind) && shape.code == code
  {
    HostTable(shape.host);
    SchemeTable(shape.scheme);
    hide NamesInstagram, AcceptedHost, AcceptedScheme, SpelledAs, Render;
    assert SpellsShortcode(shape.code) <==> ValidShortcode(shape.code);
    assert NamesForm(shape.form, kind) <==> PathForm(shape.form) == Some(kind);
    if shape.prefix.Some? {
      var p := shape.prefix.value;
      assert Contains(p, EndsAuthority) <==> exists i :: 0 <= i < |p| && p[i] in "/?#";
    }
    var text := Render(shape);
    assert Contains(text, InvalidCharacter) <==> exists i :: 0 <= i < |text| && (text[i] == ' ' || IsControl(text[i]));
  }

  /**
   A link is accepted, with a kind, a shortcode and the canonical text of both, exactly when the trimmed
   input is written as a link of that kind and shortcode.
   */
  lemma AcceptsExactlyTheLinks(input: string, kind: Kind, code: string)
    ensures Canonicalize(input) == Ok(Canonical(CanonicalText(kind, code), kind, code)) <==>
              exists shape :: Link(shape, kind, code) && Trim(input) == Render(shape)
    ensures Canonicalize(input).Ok? ==>
              var c := Canonicalize(input).value;
              c.url == CanonicalText(c.kind, c.shortcode)
  {
    hide Canonicalize, AcceptedHost, AcceptedScheme, Link, Render, Trim, PathForm, ValidShortcode, CanonicalText, Url;
    var c := Canonical(CanonicalText(kind, code), kind, code);
    UrlText(kind, code);
    AcceptsExactlyTheShapes(input, c);
    if shape :| WellShaped(shape) && Trim(input) == Render(shape) && c == Reading(shape) {
      LinkIsWellShaped(shape, kind, code);
      assert Link(shape, kind, code);
    }
    if shape :| Link(shape, kind, code) && Trim(input) == Render(shape) {
      LinkIsWellShaped(shape, kind, code);
      assert c == Reading(shape);
    }
    if Canonicalize(input).Ok? {
      AcceptedParts(input);
      UrlText(Canonicalize(input).value.kind, Canonicalize(input).value.shortcode);
    }
  }

  /** Why a link with an accepted scheme is refused before its path is looked at. */
  lemma AuthorityDecides(input: string, scheme: string, authority: string, tail: string)
    requires SpelledAs(scheme, "http") || SpelledAs(scheme, "https")
    requires forall i :: 0 <= i < |authority| ==> authority[i] !in "/?#"
    requires tail == "" || tail[0] in "/?#"
    requires Trim(input) == scheme + "://" + (authority + tail)
    requires forall i :: 0 <= i < |Trim(input)| ==> Trim(input)[i] != ' ' && !IsControl(Trim(input)[i])
    ensures
      var ported := exists i :: 0 <= i < |authority| && authority[i] in "@:";
      && (authority == "" ==> Canonicalize(input) == Err(Malformed))
      && (authority != "" && ported ==> Canonicalize(input) == Err(UnsupportedAuthority))
      && (authority != "" && !ported && !NamesInstagram(authority) ==> Canonicalize(input) == Err(ForeignHost))
  {
    var rest := authority + tail;
    SchemeTable(scheme);
    HostTable(authority);
    SchemeEndAt(scheme, rest);
    var s := Trim(input);
    assert !Contains(s, InvalidCharacter);
    assert s[..|scheme|] == scheme && s[|scheme| + 3..] == rest;
    hide NamesInstagram, AcceptedHost, AcceptedScheme, SpelledAs, Trim;
    IndexWhereIs(rest, EndsAuthority, |authority|);
    assert rest[..|authority|] == authority && rest[|authority|..] == tail;
    assert Contains(authority, IsUserInfoOrPort) <==> exists i :: 0 <= i < |authority| && authority[i] in "@:";
  }

  predicate NamesSomeForm(segment: string) {
    NamesForm(segment, Post) || NamesForm(segment, Reel) || NamesForm(segment, Igtv)
  }

  /** Why a path is refused, by its segments: a form without a good shortcode, or no form where one must stand. */
  lemma PathDecides(path: string)
    ensures
      var segments, read := Segments(path), ParsePath(path);
      var n := |segments|;
      && (n == 1 && NamesSomeForm(segments[0]) ==> read == Err(InvalidShortcode))
      && (n == 1 && !NamesSomeForm(segments[0]) ==> read == Err(NotAPermalink))
      && (n == 0 || n > 3 ==> read == Err(NotAPermalink))
      && (n == 2 || n == 3 ==>
            && (!NamesSomeForm(segments[n - 2]) ==> read == Err(NotAPermalink))
            && (NamesSomeForm(segments[n - 2]) && !SpellsShortcode(segments[n - 1]) ==> read == Err(InvalidShortcode))
            && (NamesSomeForm(segments[n - 2]) && SpellsShortcode(segments[n - 1]) ==> read.Ok?))
  {
    hide Segments;
    forall segment ensures NamesSomeForm(segment) <==> PathForm(segment).Some? {
    }
    forall code ensures SpellsShortcode(code) <==> ValidShortcode(code) {
    }
  }
}
