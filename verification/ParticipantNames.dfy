/** Generation of default display names that clash with no name in play. */
module ParticipantNames {
  import opened CaseFold
  import Decimal

  const VOWELS := ['a', 'e', 'i', 'o', 'u']

  ghost predicate Lowercase(word: string) {
    forall i | 0 <= i < |word| :: 'a' <= word[i] <= 'z'
  }

  ghost predicate IsVowel(c: char) {
    c == 'a' || c == 'e' || c == 'i' || c == 'o' || c == 'u'
  }

  lemma VowelsListed()
    ensures forall c :: c in VOWELS <==> IsVowel(c)
  {
    assert VOWELS[0] == 'a' && VOWELS[1] == 'e' && VOWELS[2] == 'i' && VOWELS[3] == 'o' && VOWELS[4] == 'u';
  }

  /** The positions of the vowels of `word`. */
  ghost function VowelPositions(word: string): set<nat> {
    set i: nat | i < |word| && IsVowel(word[i])
  }

  /** The positions at which two strings of one length differ. */
  ghost function Differences(a: string, b: string): set<nat>
    requires |a| == |b|
  {
    set i: nat | i < |a| && a[i] != b[i]
  }

  /**
   * `mutated` is `word` with one or two vowels replaced by other vowels; a
   * word with one vowel changes there, and a word without vowels not at all.
   */
  ghost predicate VowelMutation(word: string, mutated: string) {
    && |mutated| == |word|
    && Differences(word, mutated) <= VowelPositions(word) * VowelPositions(mutated)
    && (if VowelPositions(word) == {} then Differences(word, mutated) == {}
        else 1 <= |Differences(word, mutated)| <= 2)
  }

  ghost function Elements(s: seq<nat>): set<nat> {
    set x | x in s
  }

  ghost predicate Distinct(s: seq<nat>) {
    forall i, j | 0 <= i < j < |s| :: s[i] != s[j]
  }

  lemma {:induction false} DistinctCardinality(s: seq<nat>)
    requires Distinct(s)
    ensures |Elements(s)| == |s|
  {
    if s != [] {
      var front, last := s[..|s| - 1], s[|s| - 1];
      DistinctCardinality(front);
      assert s == front + [last];
      assert Elements(s) == Elements(front) + {last};
      assert last !in Elements(front);
    }
  }

  /** Collect the positions of the vowels, in order. */
  method FindVowels(word: string) returns (positions: array<nat>)
    ensures fresh(positions)
    ensures Elements(positions[..]) == VowelPositions(word)
    ensures Distinct(positions[..])
  {
    VowelsListed();
    var found: seq<nat> := [];
    for i := 0 to |word|
      invariant forall k | 0 <= k < |found| :: found[k] < i && word[found[k]] in VOWELS
      invariant forall p: nat | p < i && word[p] in VOWELS :: p in found
      invariant forall k, l | 0 <= k < l < |found| :: found[k] != found[l]
    {
      if word[i] in VOWELS {
        found := found + [i];
      }
    }
    positions := new nat[|found|](i requires 0 <= i < |found| => found[i]);
    assert positions[..] == found;
  }

  /** Fisher-Yates, stopped after `count` places. */
  method PartialShuffle(positions: array<nat>, count: nat)
    requires count <= positions.Length
    requires Distinct(positions[..])
    modifies positions
    ensures Elements(positions[..]) == old(Elements(positions[..]))
    ensures Distinct(positions[..])
  {
    for i := 0 to count
      invariant Elements(positions[..]) == old(Elements(positions[..]))
      invariant Distinct(positions[..])
    {
      var j :| i <= j < positions.Length;
      ghost var before := positions[..];
      positions[i], positions[j] := positions[j], positions[i];
      assert forall k | 0 <= k < |before| :: before[k] == positions[if k == i then j else if k == j then i else k];
      assert forall p | p in before :: p in positions[..];
    }
  }

  /** Draw one or two of the vowel positions; none if there is none. */
  method PickPositions(word: string) returns (picked: seq<nat>)
    ensures Distinct(picked) && Elements(picked) <= VowelPositions(word)
    ensures if VowelPositions(word) == {} then picked == [] else 1 <= |picked| <= 2
  {
    var positions := FindVowels(word);
    if positions.Length == 0 {
      return [];
    }
    assert positions[0] in Elements(positions[..]);
    var count := 1;
    if positions.Length > 1 {
      count :| 1 <= count <= 2;
    }
    PartialShuffle(positions, count);
    picked := positions[..count];
    assert forall p | p in picked :: p in positions[..];
  }

  /** Change one or two vowels of `word` to different vowels. */
  method MutateVowels(word: string) returns (mutated: string)
    ensures VowelMutation(word, mutated)
  {
    VowelsListed();
    var picked := PickPositions(word);
    mutated := word;
    for k := 0 to |picked|
      invariant |mutated| == |word|
      invariant Differences(word, mutated) == Elements(picked[..k])
      invariant forall p | p in Elements(picked[..k]) :: p < |word| && mutated[p] in VOWELS
    {
      var position := picked[k];
      assert position in Elements(picked);
      assert position !in Elements(picked[..k]);
      var vowel := PickOther(mutated[position]);
      ghost var before := mutated;
      mutated := mutated[position := vowel];
      assert picked[..k + 1] == picked[..k] + [position];
      assert Elements(picked[..k + 1]) == Elements(picked[..k]) + {position};
      assert Differences(word, mutated) == Differences(word, before) + {position};
    }
    assert picked[..|picked|] == picked;
    DistinctCardinality(picked);
  }

  /** Redraw until the vowel differs. */
  method PickOther(current: char) returns (vowel: char)
    ensures vowel in VOWELS && vowel != current
  {
    assert VOWELS[0] in VOWELS && VOWELS[1] in VOWELS && VOWELS[0] != VOWELS[1];
    vowel :| vowel in VOWELS && vowel != current;
  }

  lemma MutationStaysLowercase(word: string, mutated: string)
    requires Lowercase(word) && VowelMutation(word, mutated)
    ensures Lowercase(mutated)
  {
    forall i | 0 <= i < |mutated| ensures 'a' <= mutated[i] <= 'z' {
      if mutated[i] != word[i] {
        assert i in Differences(word, mutated);
        assert i in VowelPositions(mutated);
      }
    }
  }

  /** The suffixed candidates tried before `n`. */
  ghost function Tried(base: string, n: nat): set<string>
    requires n >= 2
  {
    set k: nat | 2 <= k < n :: base + Decimal.Print(k)
  }

  lemma SuffixInjective(base: string, m: nat, n: nat)
    requires base + Decimal.Print(m) == base + Decimal.Print(n)
    ensures m == n
  {
    assert Decimal.Print(m) == (base + Decimal.Print(m))[|base|..];
    assert Decimal.Print(n) == (base + Decimal.Print(n))[|base|..];
    Decimal.PrintInjective(m, n);
  }

  /** No two suffixes give one candidate, so `n - 2` of them were tried. */
  lemma {:induction false} TriedCount(base: string, n: nat)
    requires n >= 2
    ensures |Tried(base, n)| == n - 2
  {
    if n > 2 {
      TriedCount(base, n - 1);
      var last := base + Decimal.Print(n - 1);
      assert Tried(base, n) == Tried(base, n - 1) + {last};
      if last in Tried(base, n - 1) {
        var k: nat :| 2 <= k < n - 1 && base + Decimal.Print(k) == last;
        SuffixInjective(base, k, n - 1);
      }
    }
  }

  lemma CardinalityMonotone<T>(a: set<T>, b: set<T>)
    requires a <= b
    ensures |a| <= |b|
  {
    assert b == a + (b - a);
  }

  /** The first free suffix; by pigeonhole at most `|taken| + 2`. */
  method FreeSuffix(base: string, taken: set<string>) returns (candidate: string, n: nat)
    ensures candidate == base + Decimal.Print(n) && candidate !in taken
    ensures 2 <= n <= |taken| + 2
    ensures forall k: nat | 2 <= k < n :: base + Decimal.Print(k) in taken
  {
    n := 2;
    candidate := base + Decimal.Print(n);
    while candidate in taken
      invariant n >= 2 && candidate == base + Decimal.Print(n)
      invariant Tried(base, n) <= taken
      invariant forall k: nat | 2 <= k < n :: base + Decimal.Print(k) in taken
      decreases |taken| + 2 - n
    {
      assert Tried(base, n + 1) == Tried(base, n) + {candidate};
      TriedCount(base, n + 1);
      CardinalityMonotone(Tried(base, n + 1), taken);
      n := n + 1;
      candidate := base + Decimal.Print(n);
    }
    TriedCount(base, n);
    CardinalityMonotone(Tried(base, n), taken);
  }

  /** How a generated name comes about: a word, a mutation of one, or a suffixed word. */
  ghost predicate Candidate(words: seq<string>, name: string) {
    || name in words
    || (exists w :: w in words && VowelMutation(w, name))
    || (exists w, n: nat :: w in words && name == w + Decimal.Print(n))
  }

  lemma CandidateIsOwnKey(words: seq<string>, name: string)
    requires forall w | w in words :: Lowercase(w)
    requires Candidate(words, name)
    ensures Fold(name) == name
  {
    if w :| w in words && VowelMutation(w, name) {
      MutationStaysLowercase(w, name);
    }
    assert forall i | 0 <= i < |name| :: Plain(name[i]);
    PlainIsOwnKey(name);
  }

  /** The comparison keys of the taken names. */
  ghost function Keys(taken: set<string>): set<string> {
    set t | t in taken :: Fold(t)
  }

  /**
   * A default name distinct ignoring case from every taken name. `words` is
   * the word list, any non-empty list of lowercase words.
   */
  method GenerateName(words: seq<string>, taken: set<string>) returns (name: string)
    requires words != [] && forall w | w in words :: Lowercase(w)
    ensures Candidate(words, name)
    ensures exists order, tried :: multiset(order) == multiset(words) && Drawn(order, Keys(taken), tried, name)
    ensures Fold(name) == name
    ensures forall t | t in taken :: !Clash(name, t)
    ensures (exists w :: w in words && forall t | t in taken :: !Clash(w, t)) ==> name in words
  {
    hide Fold;
    var folded := set t | t in taken :: Fold(t);
    var shuffled :| multiset(shuffled) == multiset(words);
    ShuffleKeepsWords(words, shuffled);
    ghost var tried;
    name, tried := DrawName(shuffled, folded);
    assert Drawn(shuffled, Keys(taken), tried, name);
    forall w | w in words ensures Fold(w) == w {
      CandidateIsOwnKey(words, w);
    }
    assert Candidate(words, name) by {
      if w :| w in shuffled && VowelMutation(w, name) {
        assert w in words;
      } else if w, n: nat :| w in shuffled && name == w + Decimal.Print(n) {
        assert w in words;
      }
    }
    CandidateIsOwnKey(words, name);
    forall t | t in taken ensures !Clash(name, t) {
      assert Fold(t) in folded;
    }
    if w :| w in words && forall t | t in taken :: !Clash(w, t) {
      assert w in shuffled && w !in folded;
    }
  }

  lemma ShuffleKeepsWords(words: seq<string>, shuffled: seq<string>)
    requires multiset(shuffled) == multiset(words)
    ensures forall w :: w in words <==> w in shuffled
    ensures |words| == |shuffled|
  {
    assert forall w :: w in words <==> w in multiset(words);
    assert forall w :: w in shuffled <==> w in multiset(shuffled);
    assert |words| == |multiset(words)| && |shuffled| == |multiset(shuffled)|;
  }

  /** `n` is the first number from 2 on that makes a free name of `base`. */
  ghost predicate FirstFree(base: string, folded: set<string>, n: nat) {
    && n >= 2 && base + Decimal.Print(n) !in folded
    && forall k: nat | 2 <= k < n :: base + Decimal.Print(k) in folded
  }

  /** The mutations drawn, each of some word. */
  ghost predicate Mutations(words: seq<string>, tried: seq<string>) {
    |tried| <= 200 && forall k | 0 <= k < |tried| :: exists w :: w in words && VowelMutation(w, tried[k])
  }

  /**
   * How a name is drawn: the first free word; if there is none, the first free
   * one of at most 200 mutations; if 200 were taken, the first word with its
   * first free number.
   */
  ghost predicate Drawn(words: seq<string>, folded: set<string>, tried: seq<string>, name: string) {
    || (tried == [] && exists i :: 0 <= i < |words| && words[i] == name && name !in folded
                                   && forall k | 0 <= k < i :: words[k] in folded)
    || ((forall k | 0 <= k < |words| :: words[k] in folded)
        && Mutations(words, tried) && tried != [] && tried[|tried| - 1] == name && name !in folded
        && forall k | 0 <= k < |tried| - 1 :: tried[k] in folded)
    || ((forall k | 0 <= k < |words| :: words[k] in folded)
        && Mutations(words, tried) && |tried| == 200 && (forall k | 0 <= k < |tried| :: tried[k] in folded)
        && words != [] && exists n: nat :: FirstFree(words[0], folded, n) && name == words[0] + Decimal.Print(n))
  }

  /** Base words first, then up to 200 mutations, then a numeric suffix. */
  method DrawName(words: seq<string>, folded: set<string>) returns (name: string, ghost tried: seq<string>)
    requires words != []
    ensures Candidate(words, name) && name !in folded
    ensures (exists w :: w in words && w !in folded) ==> name in words
    ensures Drawn(words, folded, tried, name)
  {
    tried := [];
    for i := 0 to |words|
      invariant forall k | 0 <= k < i :: words[k] in folded
    {
      if words[i] !in folded {
        return words[i], [];
      }
    }
    for attempt := 0 to 200
      invariant |tried| == attempt && Mutations(words, tried) && forall k | 0 <= k < |tried| :: tried[k] in folded
    {
      var pick :| 0 <= pick < |words|;
      hide VowelMutation;
      name := MutateVowels(words[pick]);
      assert words[pick] in words && VowelMutation(words[pick], name);
      ghost var before := tried;
      tried := tried + [name];
      assert forall k | 0 <= k < |before| :: tried[k] == before[k];
      if name !in folded {
        return;
      }
    }
    var n;
    name, n := FreeSuffix(words[0], folded);
    assert words[0] in words && FirstFree(words[0], folded, n);
  }
}
