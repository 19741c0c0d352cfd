/** The keys of sources/multikey_tree/multikey_tree.h as paths: which characters are legal, and which
    prefixes of a key a descent creates. */
module MultikeyPaths {
  import opened Common

  type Path = string

  const WIDTH: nat := 76

  /** `multikey_tree_hasher`: the child index of a character, or the exception. */
  function Hash(c: char): (r: Option<nat>)
    ensures r.Some? ==> r.value < WIDTH
  {
    if c < '/' || c > 'z' then None else Some(c as int - '/' as int)
  }

  predicate Legal(c: char) {
    Hash(c).Some?
  }

  /** The characters a key may have are those from '/' to 'z', and there is one child slot for each. */
  lemma LegalRange(c: char)
    ensures Legal(c) <==> '/' <= c <= 'z'
    ensures WIDTH == 'z' as nat - '/' as nat + 1
  {
  }

  /** All characters of the key are in that range. */
  predicate InRange(key: Path) {
    forall i :: 0 <= i < |key| ==> '/' <= key[i] <= 'z'
  }

  /** The position of the first character outside the range is the length of the longest legal prefix. */
  lemma LegalLengthRange(key: Path)
    ensures LegalLength(key) == |key| <==> InRange(key)
    ensures InRange(key[..LegalLength(key)])
    ensures LegalLength(key) < |key| ==> !('/' <= key[LegalLength(key)] <= 'z')
  {
    var n := LegalLength(key);
    forall i | 0 <= i < n ensures '/' <= key[i] <= 'z' {
      LegalRange(key[i]);
    }
    if n < |key| {
      LegalRange(key[n]);
    }
  }

  function CharAt(i: nat): char
    requires i < WIDTH
  {
    ('/' as int + i) as char
  }

  /** Distinct legal characters have distinct indices, and every index belongs to one of them. */
  lemma HashBijective(c: char, i: nat)
    requires i < WIDTH
    ensures Legal(CharAt(i)) && Hash(CharAt(i)) == Some(i)
    ensures Hash(c) == Some(i) <==> c == CharAt(i)
  {
  }

  /** The length of the longest legal prefix. */
  function LegalLength(key: Path): (n: nat)
    ensures n <= |key|
    ensures forall i :: 0 <= i < n ==> Legal(key[i])
    ensures n < |key| ==> !Legal(key[n])
  {
    if key == [] || !Legal(key[0]) then 0 else 1 + LegalLength(key[1..])
  }

  /** The paths below `prefix` that a descent along `suffix` visits: one per legal character. */
  function Visited(prefix: Path, suffix: Path): set<Path>
    decreases |suffix|
  {
    if suffix == [] || !Legal(suffix[0]) then {}
    else {prefix + [suffix[0]]} + Visited(prefix + [suffix[0]], suffix[1..])
  }

  /** They are exactly the extensions of `prefix` by a non-empty legal prefix of `suffix`. */
  lemma {:induction false} VisitedMeaning(prefix: Path, suffix: Path, p: Path)
    ensures p in Visited(prefix, suffix) <==>
            exists n :: 1 <= n <= LegalLength(suffix) && p == prefix + suffix[..n]
    decreases |suffix|
  {
    if suffix != [] && Legal(suffix[0]) {
      var c, rest := suffix[0], suffix[1..];
      VisitedMeaning(prefix + [c], rest, p);
      forall n: nat | n <= |rest| ensures prefix + [c] + rest[..n] == prefix + suffix[..n + 1] {
      }
      if p == prefix + [c] {
        assert p == prefix + suffix[..1];
      } else if p in Visited(prefix + [c], rest) {
        var n :| 1 <= n <= LegalLength(rest) && p == prefix + [c] + rest[..n];
        assert p == prefix + suffix[..n + 1];
      } else if exists n :: 1 <= n <= LegalLength(suffix) && p == prefix + suffix[..n] {
        var n :| 1 <= n <= LegalLength(suffix) && p == prefix + suffix[..n];
        assert n > 1 ==> p == prefix + [c] + rest[..n - 1];
      }
    }
  }

  /** All nodes a set of keys needs: the root and every legal prefix of every key. */
  ghost predicate InClosure(keys: set<Path>, p: Path) {
    p == [] || exists k :: k in keys && p in Visited([], k)
  }
}
