/** The `reEscape` substitution: before a search string is made into a
    highlighting pattern, each of the characters `/ . * + ? | ( ) [ ] { } \`
    is prefixed with a backslash. */
module RegexEscape {
  import opened Wrappers

  /** The characters `reEscape` matches. (`^`, `$` and `-` are not among them.) */
  const MetaChars: set<char> := {'/', '.', '*', '+', '?', '|', '(', ')', '[', ']', '{', '}', '\\'}

  function EscapeChar(c: char): string
  {
    if c in MetaChars then ['\\', c] else [c]
  }

  /** `searchString.replace(dash.reEscape, '\\$1')`. */
  function Escape(s: string): (r: string)
    ensures |r| >= |s|
    ensures (forall k :: 0 <= k < |s| ==> s[k] !in MetaChars) ==> r == s
  {
    if s == [] then [] else EscapeChar(s[0]) + Escape(s[1..])
  }

  /** Read an escaped string back: a backslash followed by one of the
      characters stands for that character; any other of the characters,
      standing alone, would act as an operator in the pattern, so the reading
      fails (None), as it does on a lone backslash. */
  function Unescape(r: string): Option<string>
    decreases |r|
  {
    if r == [] then Some([])
    else if r[0] == '\\' then
      if |r| >= 2 && r[1] in MetaChars then
        match Unescape(r[2..])
        case Some(t) => Some([r[1]] + t)
        case None => None
      else None
    else if r[0] in MetaChars then None
    else
      match Unescape(r[1..])
      case Some(t) => Some([r[0]] + t)
      case None => None
  }

  /** Escaping leaves no character acting as an operator, and removing the
      inserted backslashes gives back the search string. */
  lemma {:induction false} UnescapeEscape(s: string)
    ensures Unescape(Escape(s)) == Some(s)
  {
    if s != [] {
      UnescapeEscape(s[1..]);
      var rest := Escape(s[1..]);
      if s[0] in MetaChars {
        var r := ['\\', s[0]] + rest;
        assert Escape(s) == r;
        assert r[0] == '\\' && r[1] == s[0] && r[2..] == rest;
        assert s == [s[0]] + s[1..];
      } else {
        assert Escape(s) == [s[0]] + rest;
        assert ([s[0]] + rest)[1..] == rest;
        assert s == [s[0]] + s[1..];
      }
    }
  }

  /** Escaping is one-to-one: different search strings give different patterns. */
  lemma EscapeInjective(s: string, t: string)
    requires Escape(s) == Escape(t)
    ensures s == t
  {
    UnescapeEscape(s);
    UnescapeEscape(t);
  }

  /** The pattern of `fnFormatResult`: the escaped search string as one group. */
  function SearchPattern(searchString: string): (pattern: string)
    ensures |pattern| >= 2 && pattern[0] == '(' && pattern[|pattern| - 1] == ')'
    ensures Unescape(pattern[1..|pattern| - 1]) == Some(searchString)
  {
    UnescapeEscape(searchString);
    var pattern := "(" + Escape(searchString) + ")";
    assert pattern[1..|pattern| - 1] == Escape(searchString);
    pattern
  }
}
