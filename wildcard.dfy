/**
 * A star-only glob matcher standing in for micromatch's `isMatch`.
 * `*` matches any run of characters that contains no path separator `/`
 * (micromatch also keeps a lone `*` from matching a leading `.`; this matcher does not);
 * every other pattern character matches itself. Like micromatch, the
 * matcher rejects the empty string whatever the pattern.
 */
module Wildcard {

  /** `s` matches `pattern` in the star-only glob language. */
  predicate Glob(pattern: string, s: string)
    decreases |pattern|, |s|
  {
    if pattern == [] then s == []
    else if pattern[0] == '*' then
      Glob(pattern[1..], s) || (s != [] && s[0] != '/' && Glob(pattern, s[1..]))
    else s != [] && s[0] == pattern[0] && Glob(pattern[1..], s[1..])
  }

  /** `micromatch.isMatch(s, pattern)`: an empty string never matches; any other string matches as the glob language says. */
  predicate Match(pattern: string, s: string) {
    s != [] && Glob(pattern, s)
  }

  /** In the glob language, the lone star matches exactly the strings without a path separator. */
  lemma {:induction false} StarGlob(s: string)
    ensures Glob("*", s) <==> '/' !in s
  {
    assert "*"[1..] == [];
    if s != [] {
      StarGlob(s[1..]);
      assert s == [s[0]] + s[1..];
    }
  }

  /** In the glob language, a pattern without stars matches only itself. */
  lemma {:induction false} LiteralGlob(pattern: string, s: string)
    requires '*' !in pattern
    ensures Glob(pattern, s) <==> s == pattern
  {
    if pattern != [] && s != [] {
      LiteralGlob(pattern[1..], s[1..]);
      assert pattern == [pattern[0]] + pattern[1..];
      assert s == [s[0]] + s[1..];
    }
  }

  /** In the glob language, a literal prefix followed by a star matches the strings that start with the prefix and continue without a path separator. */
  lemma {:induction false} PrefixStarGlob(prefix: string, s: string)
    requires '*' !in prefix
    ensures Glob(prefix + "*", s) <==> prefix <= s && '/' !in s[|prefix|..]
  {
    if prefix == [] {
      assert prefix + "*" == "*";
      StarGlob(s);
    } else {
      assert (prefix + "*")[0] == prefix[0];
      assert (prefix + "*")[1..] == prefix[1..] + "*";
      if s != [] {
        PrefixStarGlob(prefix[1..], s[1..]);
        assert s == [s[0]] + s[1..];
        assert prefix == [prefix[0]] + prefix[1..];
        if prefix <= s {
          assert s[|prefix|..] == s[1..][|prefix[1..]|..];
        }
        if prefix[1..] <= s[1..] && s[0] == prefix[0] {
          assert prefix <= s;
        }
      }
    }
  }

  /** The empty string matches no pattern. */
  lemma EmptyNeverMatches(pattern: string)
    ensures !Match(pattern, [])
  {
  }

  /** The lone star matches exactly the non-empty strings without a path separator. */
  lemma StarMatches(s: string)
    ensures Match("*", s) <==> s != [] && '/' !in s
  {
    StarGlob(s);
  }

  /** A pattern without stars matches only itself, and the empty pattern matches nothing. */
  lemma LiteralMatches(pattern: string, s: string)
    requires '*' !in pattern
    ensures Match(pattern, s) <==> pattern != [] && s == pattern
  {
    LiteralGlob(pattern, s);
  }

  /** A literal prefix followed by a star matches the non-empty strings that start with the prefix and continue without a path separator. */
  lemma PrefixStarMatches(prefix: string, s: string)
    requires '*' !in prefix
    ensures Match(prefix + "*", s) <==> s != [] && prefix <= s && '/' !in s[|prefix|..]
  {
    PrefixStarGlob(prefix, s);
  }

  // One-directional forms of the three characterisations above. They are
  // what the concrete scenarios call: one direction at a time keeps the
  // solver from unfolding the matcher on literal strings.

  /** The lone star accepts every non-empty string without a path separator. */
  lemma StarAccepts(s: string)
    requires s != [] && '/' !in s
    ensures Match("*", s)
  {
    StarGlob(s);
  }

  /** A non-empty pattern without stars accepts itself. */
  lemma LiteralAccepts(pattern: string)
    requires pattern != [] && '*' !in pattern
    ensures Match(pattern, pattern)
  {
    LiteralGlob(pattern, pattern);
  }

  /** A pattern without stars rejects every other string. */
  lemma LiteralRejects(pattern: string, s: string)
    requires '*' !in pattern && s != pattern
    ensures !Match(pattern, s)
  {
    LiteralGlob(pattern, s);
  }

  /** A pattern that starts with a character other than the star rejects every string that does not start with that character. */
  lemma FirstCharRejects(pattern: string, s: string)
    requires pattern != [] && pattern[0] != '*'
    requires s == [] || s[0] != pattern[0]
    ensures !Match(pattern, s)
  {
  }

  /** A literal prefix followed by a star accepts every non-empty string that extends the prefix without a path separator. */
  lemma PrefixStarAccepts(prefix: string, s: string)
    requires '*' !in prefix && s != [] && prefix <= s && '/' !in s[|prefix|..]
    ensures Match(prefix + "*", s)
  {
    PrefixStarGlob(prefix, s);
  }

  /** A literal prefix followed by a star rejects every string that does not extend the prefix. */
  lemma PrefixStarRejects(prefix: string, s: string)
    requires '*' !in prefix && !(prefix <= s)
    ensures !Match(prefix + "*", s)
  {
    PrefixStarGlob(prefix, s);
  }
}
