/**
 Index-template patterns: a name matches a pattern when the `*` characters of the
 pattern can be stretched over any (possibly empty) run of characters of the name and
 every other character agrees. The document store applies a template to each newly
 created index whose name matches its pattern.
 */
module Glob {

  const Wildcard: char := '*'

  function Matches(pattern: string, name: string): bool
    decreases |pattern| + |name|
  {
    if pattern == [] then name == []
    else if pattern[0] == Wildcard then
      Matches(pattern[1..], name) || (name != [] && Matches(pattern, name[1..]))
    else
      name != [] && name[0] == pattern[0] && Matches(pattern[1..], name[1..])
  }

  /** A lone wildcard matches every name. */
  lemma {:induction false} WildcardMatchesAll(name: string)
    ensures Matches([Wildcard], name)
  {
    if name != [] {
      WildcardMatchesAll(name[1..]);
    } else {
      assert [Wildcard][1..] == [];
    }
  }

  /**
   A pattern made of a literal prefix and one trailing wildcard matches exactly the
   names that start with that prefix.
   */
  lemma {:induction false} PrefixPatternMatches(prefix: string, name: string)
    requires Wildcard !in prefix
    ensures Matches(prefix + [Wildcard], name) <==> prefix <= name
  {
    if prefix == [] {
      assert prefix + [Wildcard] == [Wildcard];
      WildcardMatchesAll(name);
    } else {
      var pattern := prefix + [Wildcard];
      assert pattern[0] == prefix[0];
      assert pattern[1..] == prefix[1..] + [Wildcard];
      if name != [] {
        PrefixPatternMatches(prefix[1..], name[1..]);
        assert prefix <= name <==> name[0] == prefix[0] && prefix[1..] <= name[1..];
      }
    }
  }
}
