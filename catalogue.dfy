/** The song-catalogue search of the repertoire view (`filtrar_musicas`), lifted out of
    the page code with the catalogue passed in as a sequence of titles. */
module Catalogue {
  import opened Text

  /** `termo.lower().strip()` */
  function NormalizeTerm(term: string): (t: string)
    ensures t == [] <==> AllSpace(term)
    ensures forall i :: 0 <= i < |t| ==> !IsUpper(t[i])
    ensures t != [] ==> !IsSpace(t[0]) && !IsSpace(t[|t| - 1])
  {
    var lowered := Lower(term);
    var t := Strip(lowered);
    assert forall i :: 0 <= i < |t| ==> t[i] == lowered[LeadingSpaces(lowered) + i];
    assert AllSpace(lowered) <==> AllSpace(term);
    t
  }

  /** The test of the list comprehension: the lower-cased entry contains the whole
      normalised term, or one of its whitespace-separated words. */
  predicate Matches(entry: string, t: string) {
    Contains(Lower(entry), t) || SomeWordIn(Split(t), Lower(entry))
  }

  /** `any(p in text for p in words)` */
  predicate SomeWordIn(words: seq<string>, text: string) {
    exists w :: w in words && Contains(text, w)
  }

  /** A text containing a non-blank term contains the term's first word. */
  lemma ContainsFirstWord(text: string, t: string)
    requires !AllSpace(t)
    requires Contains(text, t)
    ensures SomeWordIn(Split(t), text)
  {
    var w := Split(t)[0];
    assert w in Split(t);
    ContainsTransitive(text, t, w);
  }

  /** For a term that is not blank, the whole-term test adds nothing to the word test. */
  lemma WholeTermSubsumed(entry: string, t: string)
    requires !AllSpace(t)
    ensures Matches(entry, t) <==> SomeWordIn(Split(t), Lower(entry))
  {
    if Contains(Lower(entry), t) {
      ContainsFirstWord(Lower(entry), t);
    }
  }

  /** `r` is `s` with some elements left out and the rest kept in order. */
  ghost predicate IsSubsequence(r: seq<string>, s: seq<string>)
    decreases |s|
  {
    r == []
    || (s != [] && ((r[0] == s[0] && IsSubsequence(r[1..], s[1..])) || IsSubsequence(r, s[1..])))
  }

  /** A subsequence holds no more copies of any value than the sequence it comes from. */
  lemma {:induction false} SubsequenceCount(r: seq<string>, s: seq<string>, x: string)
    requires IsSubsequence(r, s)
    ensures multiset(r)[x] <= multiset(s)[x]
    decreases |s|
  {
    if r != [] {
      assert s == [s[0]] + s[1..];
      if r[0] == s[0] && IsSubsequence(r[1..], s[1..]) {
        assert r == [r[0]] + r[1..];
        SubsequenceCount(r[1..], s[1..], x);
      } else {
        SubsequenceCount(r, s[1..], x);
      }
    }
  }

  /** `[m for m in catalogue if <test>]` for the normalised term `t`. */
  function Keep(catalogue: seq<string>, t: string): (r: seq<string>)
    ensures IsSubsequence(r, catalogue)
    ensures forall m :: m in r ==> Matches(m, t)
    ensures forall m :: Matches(m, t) ==> multiset(r)[m] == multiset(catalogue)[m]
  {
    if catalogue == [] then []
    else
      var head, rest := catalogue[0], catalogue[1..];
      assert catalogue == [head] + rest;
      var kept := Keep(rest, t);
      if Matches(head, t) then
        var r := [head] + kept;
        assert r[0] == head && r[1..] == kept;
        r
      else
        kept
  }

  /** The three properties of `Keep` determine its result: any order-preserving selection
      from the catalogue that holds only matching entries and every copy of each matching
      entry is exactly the filtered list. */
  lemma {:induction false} KeepUnique(catalogue: seq<string>, t: string, r: seq<string>)
    requires IsSubsequence(r, catalogue)
    requires forall m :: m in r ==> Matches(m, t)
    requires forall m :: Matches(m, t) ==> multiset(r)[m] == multiset(catalogue)[m]
    ensures r == Keep(catalogue, t)
    decreases |catalogue|
  {
    if catalogue == [] {
      assert r == [];
    } else {
      var head, rest := catalogue[0], catalogue[1..];
      assert catalogue == [head] + rest;
      if Matches(head, t) {
        if !(r != [] && r[0] == head && IsSubsequence(r[1..], rest)) {
          SubsequenceCount(r, rest, head);
          assert false;
        }
        assert r == [head] + r[1..];
        KeepUnique(rest, t, r[1..]);
      } else {
        assert r != [] ==> r[0] != head by {
          if r != [] { assert r[0] in r; }
        }
        KeepUnique(rest, t, r);
      }
    }
  }

  /** `filtrar_musicas`: a blank term keeps the whole catalogue; otherwise the result is
      the catalogue's matching entries, every copy of each, in catalogue order, and
      nothing else. */
  function FilterSongs(catalogue: seq<string>, term: string): (r: seq<string>)
    ensures AllSpace(term) ==> r == catalogue
    ensures !AllSpace(term) ==> IsSubsequence(r, catalogue)
    ensures !AllSpace(term) ==> forall m :: m in r ==> Matches(m, NormalizeTerm(term))
    ensures !AllSpace(term) ==>
      forall m :: Matches(m, NormalizeTerm(term)) ==> multiset(r)[m] == multiset(catalogue)[m]
  {
    var t := NormalizeTerm(term);
    if t == [] then catalogue else Keep(catalogue, t)
  }
}
