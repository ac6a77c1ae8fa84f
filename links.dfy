/** The search links built from a song title by `pesquisar_youtube` and
    `pesquisar_cifraclub`. */
module SearchLinks {
  import opened Text

  const YoutubeSearch: string := "https://www.youtube.com/results?search_query="
  const CifraClubSearch: string := "https://www.cifraclub.com.br/?q="

  /** What one title character becomes in the YouTube query: a space becomes `+`,
      a parenthesis disappears, anything else is kept. */
  function YoutubeChar(c: char): string {
    if c == ' ' then "+" else if c == '(' || c == ')' then "" else [c]
  }

  /** The YouTube query written as a single left-to-right pass over the title. */
  function YoutubeEncode(s: string): (q: string)
    ensures ' ' !in q && '(' !in q && ')' !in q
    ensures |q| == |s| - multiset(s)['('] - multiset(s)[')']
  {
    if s == [] then []
    else
      assert s == [s[0]] + s[1..];
      YoutubeChar(s[0]) + YoutubeEncode(s[1..])
  }

  /** `musica.replace(" ", "+").replace("(", "").replace(")", "")` */
  function YoutubeQuery(title: string): string {
    ReplaceAll(ReplaceAll(ReplaceAll(title, ' ', "+"), '(', ""), ')', "")
  }

  /** The three chained replacements act on each character independently. */
  lemma {:induction false} YoutubeQueryOnePass(title: string)
    ensures YoutubeQuery(title) == YoutubeEncode(title)
  {
    if title != [] {
      var c, rest := title[0], title[1..];
      var r1 := ReplaceAll(rest, ' ', "+");
      var r2 := ReplaceAll(r1, '(', "");
      var p1 := if c == ' ' then "+" else [c];
      var p2 := ReplaceAll(p1, '(', "");
      assert ReplaceAll(title, ' ', "+") == p1 + r1;
      ReplaceAllAppend(p1, r1, '(', "");
      ReplaceAllAppend(p2, r2, ')', "");
      assert ReplaceAll(p2, ')', "") == YoutubeChar(c);
      YoutubeQueryOnePass(rest);
    }
  }

  /** `pesquisar_youtube`: the search URL is the fixed prefix followed by the title with
      spaces turned into `+` and parentheses removed, every other character kept in
      order, so the query holds no space and no parenthesis. */
  function YoutubeLink(title: string): (url: string)
    ensures YoutubeSearch <= url
    ensures |url| == |YoutubeSearch| + |title| - multiset(title)['('] - multiset(title)[')']
    ensures url[|YoutubeSearch|..] == YoutubeEncode(title)
    ensures var q := url[|YoutubeSearch|..]; ' ' !in q && '(' !in q && ')' !in q
  {
    YoutubeQueryOnePass(title);
    YoutubeSearch + YoutubeQuery(title)
  }

  /** `musica.split("(")[0].strip()`: the part of the title the Cifra Club query uses. */
  function CifraTitle(title: string): (t: string)
    ensures '(' !in t
    ensures '(' !in title ==> t == Strip(title)
  {
    var before := BeforeFirst(title, '(');
    assert '(' !in title ==> before == title;
    var t := Strip(before);
    assert forall i :: 0 <= i < |t| ==> t[i] == before[LeadingSpaces(before) + i];
    t
  }

  /** What one character of the stripped title becomes in the Cifra Club query. */
  function CifraChar(c: char): char {
    if c == ' ' then '-' else LowerChar(c)
  }

  /** `.replace(" ", "-").lower()` applied to the stripped title. */
  function CifraQuery(title: string): string {
    Lower(ReplaceAll(CifraTitle(title), ' ', "-"))
  }

  /** The query is the stripped title, character by character, with spaces turned into `-`
      and letters lowered; it holds no parenthesis, no space and no upper-case letter. */
  lemma CifraQueryCharwise(title: string)
    ensures |CifraQuery(title)| == |CifraTitle(title)|
    ensures forall i :: 0 <= i < |CifraTitle(title)| ==> CifraQuery(title)[i] == CifraChar(CifraTitle(title)[i])
    ensures '(' !in CifraQuery(title) && ' ' !in CifraQuery(title)
    ensures forall i :: 0 <= i < |CifraQuery(title)| ==> !IsUpper(CifraQuery(title)[i])
  {
    var t := CifraTitle(title);
    ReplaceByChar(t, ' ', '-');
    var q := CifraQuery(title);
    forall i | 0 <= i < |q| ensures q[i] != '(' && q[i] != ' ' {
      assert t[i] in t;
    }
  }

  /** `pesquisar_cifraclub`: the fixed prefix followed by the query of `CifraQueryCharwise`. */
  function CifraClubLink(title: string): (url: string)
    ensures |url| == |CifraClubSearch| + |CifraTitle(title)|
    ensures CifraClubSearch <= url
    ensures forall i :: 0 <= i < |CifraTitle(title)| ==>
      url[|CifraClubSearch| + i] == CifraChar(CifraTitle(title)[i])
    ensures var q := url[|CifraClubSearch|..]; '(' !in q && ' ' !in q
    ensures forall i :: |CifraClubSearch| <= i < |url| ==> !IsUpper(url[i])
  {
    CifraQueryCharwise(title);
    var q := CifraQuery(title);
    var url := CifraClubSearch + q;
    assert url[|CifraClubSearch|..] == q;
    url
  }
}
