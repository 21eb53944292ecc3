/**
 * A simple matcher for exclusion patterns: literal characters, '?' (one character other than
 * '/') and '*' (any run of characters other than '/'). Unlike `filepath.Match`, it treats
 * '[' and the backslash as ordinary characters: it has no character classes and no escapes,
 * and so never reports a malformed pattern.
 */
module Glob {
  import opened Strings
  import opened Policy

  predicate HasMeta(p: string) {
    '*' in p || '?' in p
  }

  function GlobMatches(pattern: string, name: string): bool
    decreases |pattern| + |name|
  {
    if pattern == [] then name == []
    else if pattern[0] == '*' then
      GlobMatches(pattern[1..], name) || (name != [] && name[0] != '/' && GlobMatches(pattern, name[1..]))
    else if name == [] then false
    else if pattern[0] == '?' then name[0] != '/' && GlobMatches(pattern[1..], name[1..])
    else pattern[0] == name[0] && GlobMatches(pattern[1..], name[1..])
  }

  /** The matcher as the engine consumes it; this subset has no malformed patterns. */
  function SimpleMatcher(pattern: string, name: string): (r: MatchResult)
    ensures r != BadPattern
  {
    if GlobMatches(pattern, name) then Matched else Unmatched
  }

  /** A pattern without metacharacters matches exactly itself. */
  lemma {:induction false} LiteralMatch(pattern: string, name: string)
    requires !HasMeta(pattern)
    ensures GlobMatches(pattern, name) <==> pattern == name
    decreases |pattern|
  {
    if pattern != [] && name != [] {
      assert !HasMeta(pattern[1..]) by {
        assert forall c :: c in pattern[1..] ==> c in pattern;
      }
      LiteralMatch(pattern[1..], name[1..]);
      if pattern[1..] == name[1..] && pattern[0] == name[0] {
        assert pattern == [pattern[0]] + pattern[1..] && name == [name[0]] + name[1..];
      }
    }
  }

  /** "*" followed by a literal suffix, e.g. "*.go", matches exactly the names (without '/')
      that end with that suffix. */
  lemma {:induction false} StarSuffixMatch(suffix: string, name: string)
    requires !HasMeta(suffix) && '/' !in name
    ensures GlobMatches("*" + suffix, name) <==> HasSuffix(name, suffix)
    decreases |name|
  {
    var p := "*" + suffix;
    assert p[0] == '*' && p[1..] == suffix;
    LiteralMatch(suffix, name);
    HasSuffixStep(name, suffix);
    if name != [] {
      assert '/' !in name[1..] by {
        assert forall c :: c in name[1..] ==> c in name;
      }
      StarSuffixMatch(suffix, name[1..]);
    }
  }
}
