/**
 Wildcard filters: `wildcardRegexp` (internal/filter/filter.go) turns a glob into the text of
 a regular expression. The text is read back here by a parser for the fragment that can be
 emitted, given its usual meaning, and compared with what the glob itself describes.
 */
module Glob {
  import opened Common

  // ---- The translation -------------------------------------------------------------------

  const META := "\\.+*?()|[]{}^$"

  /** `regexp.QuoteMeta` of a one-character string. */
  function QuoteMeta(c: char): string {
    if c in META then ['\\', c] else [c]
  }

  function Emit(c: char): string {
    if c == '*' then ".*" else if c == '?' then "." else QuoteMeta(c)
  }

  function EmitAll(pattern: string): string {
    if pattern == "" then "" else Emit(pattern[0]) + EmitAll(pattern[1..])
  }

  function RegexpText(pattern: string): string {
    "^" + EmitAll(pattern) + "$"
  }

  lemma {:induction false} EmitAllSnoc(pattern: string, c: char)
    ensures EmitAll(pattern + [c]) == EmitAll(pattern) + Emit(c)
  {
    if pattern == "" {
      assert pattern + [c] == [c];
    } else {
      EmitAllSnoc(pattern[1..], c);
      assert (pattern + [c])[1..] == pattern[1..] + [c];
    }
  }

  /** The loop that appends to a string builder. */
  method WildcardRegexp(pattern: string) returns (text: string)
    ensures text == RegexpText(pattern)
  {
    text := "^";
    for i := 0 to |pattern|
      invariant text == "^" + EmitAll(pattern[..i])
    {
      EmitAllSnoc(pattern[..i], pattern[i]);
      assert pattern[..i + 1] == pattern[..i] + [pattern[i]];
      match pattern[i]
      case '*' => text := text + ".*";
      case '?' => text := text + ".";
      case c => text := text + QuoteMeta(c);
    }
    assert pattern[..|pattern|] == pattern;
    text := text + "$";
  }

  // ---- Reading and matching the emitted fragment -----------------------------------------

  datatype Atom = Literal(c: char) | AnyChar | AnyStar

  /** Reads the text after `^`: escapes, `.`, `.*`, plain characters, and a closing `$`. */
  function ParseBody(text: string): Option<seq<Atom>> {
    if text == "" then None
    else if text == "$" then Some([])
    else if text[0] == '\\' then
      if |text| >= 2 && text[1] in META then Prepend(Literal(text[1]), ParseBody(text[2..])) else None
    else if text[0] == '.' then
      if |text| >= 2 && text[1] == '*' then Prepend(AnyStar, ParseBody(text[2..]))
      else Prepend(AnyChar, ParseBody(text[1..]))
    else if text[0] in META then None
    else Prepend(Literal(text[0]), ParseBody(text[1..]))
  }

  function Prepend(a: Atom, rest: Option<seq<Atom>>): Option<seq<Atom>> {
    if rest.Some? then Some([a] + rest.value) else None
  }

  function ParseRegexp(text: string): Option<seq<Atom>> {
    if text != "" && text[0] == '^' then ParseBody(text[1..]) else None
  }

  /** What an anchored sequence of atoms accepts; `.` never matches a newline. */
  predicate Accepts(atoms: seq<Atom>, s: string) {
    if atoms == [] then s == ""
    else match atoms[0]
      case Literal(c) => s != "" && s[0] == c && Accepts(atoms[1..], s[1..])
      case AnyChar => s != "" && s[0] != '\n' && Accepts(atoms[1..], s[1..])
      case AnyStar => exists k: nat :: k <= |s| && '\n' !in s[..k] && Accepts(atoms[1..], s[k..])
  }

  /** `re.MatchString(s)` for a text inside the fragment. */
  predicate RegexpMatches(text: string, s: string) {
    var parsed := ParseRegexp(text);
    parsed.Some? && Accepts(parsed.value, s)
  }

  // ---- What a glob describes --------------------------------------------------------------

  ghost predicate Fits(c: char, piece: string) {
    if c == '*' then '\n' !in piece
    else if c == '?' then |piece| == 1 && piece[0] != '\n'
    else piece == [c]
  }

  function Concat(pieces: seq<string>): string {
    if pieces == [] then "" else pieces[0] + Concat(pieces[1..])
  }

  /** `pieces` cuts `s` into one piece for each pattern character, each of the right kind. */
  ghost predicate Cuts(pattern: string, s: string, pieces: seq<string>) {
    && |pieces| == |pattern|
    && Concat(pieces) == s
    && forall i :: 0 <= i < |pattern| ==> Fits(pattern[i], pieces[i])
  }

  ghost predicate GlobMatches(pattern: string, s: string) {
    exists pieces: seq<string> :: Cuts(pattern, s, pieces)
  }

  // ---- The translation preserves the meaning ----------------------------------------------

  function AtomOf(c: char): Atom {
    if c == '*' then AnyStar else if c == '?' then AnyChar else Literal(c)
  }

  function Atoms(pattern: string): seq<Atom> {
    if pattern == "" then [] else [AtomOf(pattern[0])] + Atoms(pattern[1..])
  }

  lemma EmitStart(pattern: string)
    ensures var rest := EmitAll(pattern) + "$"; rest != "" && rest[0] != '*'
  {
  }

  /** Quoting makes every character stand for itself: the parser finds exactly the glob's atoms. */
  lemma {:induction false} ParseEmitted(pattern: string)
    ensures ParseBody(EmitAll(pattern) + "$") == Some(Atoms(pattern))
  {
    if pattern != "" {
      var rest := EmitAll(pattern[1..]) + "$";
      ParseEmitted(pattern[1..]);
      EmitStart(pattern[1..]);
      var text := EmitAll(pattern) + "$";
      assert text == Emit(pattern[0]) + rest;
      assert text[|Emit(pattern[0])|..] == rest;
    }
  }

  lemma {:induction false} AcceptsGivesCut(pattern: string, s: string) returns (pieces: seq<string>)
    requires Accepts(Atoms(pattern), s)
    ensures Cuts(pattern, s, pieces)
  {
    if pattern == "" {
      pieces := [];
    } else {
      assert Atoms(pattern)[1..] == Atoms(pattern[1..]);
      var k: nat :| k <= |s| && Fits(pattern[0], s[..k]) && Accepts(Atoms(pattern[1..]), s[k..]) by {
        if pattern[0] != '*' { assert Fits(pattern[0], s[..1]); }
      }
      var rest := AcceptsGivesCut(pattern[1..], s[k..]);
      pieces := [s[..k]] + rest;
      assert pieces[1..] == rest;
    }
  }

  lemma {:induction false} CutGivesAccepts(pattern: string, s: string, pieces: seq<string>)
    requires Cuts(pattern, s, pieces)
    ensures Accepts(Atoms(pattern), s)
  {
    if pattern != "" {
      var k := |pieces[0]|;
      assert Atoms(pattern)[1..] == Atoms(pattern[1..]);
      assert s[..k] == pieces[0] && s[k..] == Concat(pieces[1..]);
      CutGivesAccepts(pattern[1..], s[k..], pieces[1..]);
    }
  }

  /** For every pattern and string, the emitted regular expression accepts what the glob describes. */
  lemma WildcardPreservesMeaning(pattern: string, s: string)
    ensures RegexpMatches(RegexpText(pattern), s) <==> GlobMatches(pattern, s)
  {
    ParseEmitted(pattern);
    assert RegexpText(pattern)[1..] == EmitAll(pattern) + "$";
    if Accepts(Atoms(pattern), s) {
      var _ := AcceptsGivesCut(pattern, s);
    }
    if pieces :| Cuts(pattern, s, pieces) {
      CutGivesAccepts(pattern, s, pieces);
    }
  }
}
