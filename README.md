# Music analyser core, modelled in Dafny

The application (`app.py`) takes a song recording. It reports a short list of plausible tempos in beats per minute and an estimated key, given as a pitch class. It also offers a searchable song catalogue with links to YouTube and Cifra Club searches. This project models the deterministic logic of that file. The audio library calls, the web page and the file handling are left outside as boundaries.

- `Tempo` (tempo.dfy): the post-processing in `estimar_bpm_multiplos`. The beat tracker's primary tempo `p` is an input real. The candidates `p`, `p/2` and `2p` are tested against the closed range [40, 240] before rounding. The survivors are rounded with Python's `round` (half to even), deduplicated and sorted ascending. `EstimateBpmCandidates` is the loop of the source. It is proved equal to the specification `TempoCandidates`, and the lemmas give that specification its bounds, its strict order, its size and its exact membership.
- `Key` (key.dfy): key selection in `estimar_tom`. Each row of the 12-row chroma matrix is summed over time. `argmax` picks the first row with the largest sum, and that index is mapped into the fixed list `C, C#, …, B`.
- `SearchLinks` (links.dfy): `pesquisar_youtube` and `pesquisar_cifraclub`. The YouTube query is proved equal to a one-pass map over the title's characters. The Cifra Club query is proved to be the stripped text before the first `(`, mapped character by character.
- `Catalogue` (catalogue.dfy): `filtrar_musicas`, lifted out of the page code. The catalogue is passed in as a parameter.
- `Text` (text.dfy): ASCII models of the Python string methods these use: `lower`, `strip`, `split()`, `split("(")[0]`, `replace` and `in`.

## Model

| member | source | states |
|---|---|---|
| `Tempo.Round` | app.py:32 | Python `round`: the result is within 1/2 of the input, and a tie goes to the even integer |
| `Tempo.RoundWithin` | app.py:30-32 | a value in a closed range with integer ends still lies in that range after rounding |
| `Tempo.KeepInRange` | app.py:27-31 | the filtered list keeps exactly the candidates that pass the unrounded range test, and it is no longer than its input |
| `Tempo.InsertSorted` | app.py:32 | adding a value to a strictly increasing list keeps it strictly increasing, adds exactly that value, and grows the list by at most one |
| `Tempo.SortedDistinct` | app.py:32 | `sorted(set(xs))` is strictly increasing, holds exactly the values of `xs`, and is no longer than `xs` |
| `Tempo.StrictlyIncreasingUnique` | app.py:32 | two strictly increasing lists with the same values are equal, so `sorted(set(..))` is determined by its values |
| `Tempo.Octaves` | app.py:24-26 | the three candidates `p`, `p/2`, `2p` in the source's order; `TempoCandidatesSpec` states what the result keeps of them, through `FromOctave` |
| `Tempo.RoundAll` | app.py:32 | the list comprehension `[round(b) for b in ...]`; `TempoCandidatesSpec` relates its values to `Round` of the in-range candidates |
| `Tempo.TempoCandidates` | app.py:24-32 | the result of the post-processing; `TempoCandidatesSpec` and `TempoCandidatesAre` characterise it, and `EstimateBpmCandidates` is proved equal to it |
| `Tempo.TempoCandidatesSpec` | app.py:24-32 | the candidates strictly increase, so they hold no duplicate; there are at most 3; each lies in [40, 240]; and `b` is a candidate iff it is the rounding of one of `p`, `p/2`, `2p` that lies in [40, 240] before rounding |
| `Tempo.TempoCandidatesAre` | app.py:24-32 | the candidates are the one strictly increasing list whose values are those roundings |
| `Tempo.Primary100` | app.py:24-32 | a primary tempo of 100 gives `[50, 100, 200]` |
| `Tempo.Primary130` | app.py:24-32 | a primary tempo of 130 gives `[65, 130]`, because 260 is out of range |
| `Tempo.Primary30` | app.py:24-32 | a primary tempo of 30 gives `[60]` |
| `Tempo.Primary300` | app.py:24-32 | a primary tempo of 300 gives `[150]` |
| `Tempo.Primary500` | app.py:24-32 | a primary tempo of 500 gives the empty list, which is a result and not an error |
| `Tempo.Primary81` | app.py:24-32 | a primary tempo of 81 gives `[40, 81, 162]`: 40.5 passes the test and rounds half to even |
| `Tempo.RangeTestBeforeRounding` | app.py:30-32 | 240.5 and 39.5 are rejected although they would round into the range (primary 481 gives `[]`, primary 79 gives `[79, 158]`) |
| `Tempo.EstimateBpmCandidates` | app.py:23-33 | the loop and the final rebinding yield `TempoCandidates(p)`: strictly increasing, at most 3 values, all in [40, 240], with exactly the members of `TempoCandidatesSpec` |
| `Key.Sum` | app.py:38 | `np.sum` over one row's frames; characterised by `SumAppend` (additive over split windows) and `SumMonotone` |
| `Key.SumAppend` | app.py:38 | the energy summed over a window split in two is the sum of the two parts' energies |
| `Key.SumMonotone` | app.py:38 | a row that is frame by frame at least as large as another has at least as large a sum |
| `Key.ChromaSums` | app.py:38 | summing over time gives one value per chroma row |
| `Key.ArgMax` | app.py:39 | returns an index of a maximum, and every earlier value is strictly smaller, so the first maximum wins |
| `Key.FirstMaxUnique` | app.py:39 | at most one index is a first maximum, so the reported key is determined by the sums |
| `Key.DominatedNeverFirstMax` | app.py:38-39 | a pitch class dominated frame by frame by an earlier one is never reported |
| `Key.EstimateKey` | app.py:38-43 | the key is one of the 12 names, and it is the name at the first index whose summed energy is maximal |
| `Key.DominantC` | app.py:38-42 | sums `[10, 2, 2, …, 2]` give `"C"` |
| `Text.LowerChar` | app.py:50 | A–Z become a–z; every other character is kept; the result is never upper case |
| `Text.Lower` | app.py:111 | `lower()` keeps the length, leaves no upper-case letter, and keeps whitespace as whitespace |
| `Text.Strip` | app.py:50 | `strip()` is the slice of the input without its leading and trailing whitespace; it is empty iff the input is all whitespace; otherwise it starts and ends with a non-whitespace character |
| `Text.BeforeFirst` | app.py:50 | `split(c)[0]` is a prefix of the input with no `c`, and it is followed by `c` when it is shorter than the input |
| `Text.ReplaceAll` | app.py:46 | `str.replace` with a one-character pattern; characterised by `ReplaceAllAppend` and `ReplaceByChar`, and for the YouTube query by `YoutubeQueryOnePass` |
| `Text.ReplaceAllAppend` | app.py:46 | `replace` distributes over concatenation |
| `Text.ReplaceByChar` | app.py:50 | replacing a character by one character keeps the length and changes exactly the matching positions |
| `Text.Contains` | app.py:114 | Python `in` on strings; `ContainsInSuffix`, `ContainsPrefixed` and `ContainsTransitive` state how it behaves under suffixes, prefixes and chaining |
| `Text.ContainsTransitive` | app.py:114 | substring containment (`in`) is transitive |
| `Text.TakeWord` | app.py:114 | the first word of a text: a prefix with no whitespace, followed by whitespace when shorter than the text, non-empty when the text starts with a non-whitespace character |
| `Text.Split` | app.py:114 | `split()` yields non-empty words without whitespace, each occurring in the input; there are none iff the input is all whitespace |
| `SearchLinks.YoutubeEncode` | app.py:46 | the one-pass query holds no space and no parenthesis, and its length is the title's length minus the number of parentheses |
| `SearchLinks.YoutubeQueryOnePass` | app.py:46 | the three chained `replace` calls equal a single pass: a space becomes `+`, a parenthesis is dropped, any other character is kept in order |
| `SearchLinks.YoutubeQuery` | app.py:46 | the literal chained `replace` calls; equal to `YoutubeEncode` by `YoutubeQueryOnePass` |
| `SearchLinks.YoutubeLink` | app.py:45-47 | the URL is the YouTube search prefix followed by the one-pass query; the query holds no space or parenthesis; the length is prefix + title − parentheses |
| `SearchLinks.CifraTitle` | app.py:50 | the text before the first `(`, stripped, holds no `(`; with no `(` in the title it is the whole title stripped |
| `SearchLinks.CifraQueryCharwise` | app.py:50 | the query is the stripped title character by character, with a space turned into `-` and a letter lowered; it holds no `(`, no space and no upper-case letter |
| `SearchLinks.CifraQuery` | app.py:50 | the chained `split`, `strip`, `replace` and `lower` calls; characterised character by character by `CifraQueryCharwise` |
| `SearchLinks.CifraClubLink` | app.py:49-51 | the URL is the Cifra Club prefix followed by that query, whose properties it states |
| `Catalogue.NormalizeTerm` | app.py:111 | the normalised term is empty iff the term is blank; it has no upper-case letter and no surrounding whitespace |
| `Catalogue.Matches` | app.py:114 | the comprehension's test: the lower-cased entry contains the term or one of its words; `WholeTermSubsumed` shows the word test alone decides it for a non-blank term |
| `Catalogue.ContainsFirstWord` | app.py:114 | a text containing a non-blank term contains one of the term's words |
| `Catalogue.WholeTermSubsumed` | app.py:114 | for a non-blank term, an entry matches iff it contains one of the term's words; the whole-term test adds nothing |
| `Catalogue.SubsequenceCount` | app.py:114 | an order-preserving selection holds no more copies of a value than its source |
| `Catalogue.Keep` | app.py:114 | the comprehension keeps the catalogue's order, keeps only matching entries, and keeps every copy of each matching entry |
| `Catalogue.KeepUnique` | app.py:114 | those three properties determine the filtered list |
| `Catalogue.FilterSongs` | app.py:110-114 | a blank term returns the catalogue unchanged; otherwise the result is the order-preserving selection of exactly the matching entries |

## Left out

- `baixar_audio_api` (app.py:11-18): an HTTP request to a local service plus a file write, which is I/O. Its menu option is commented out (app.py:61), so the YouTube branch (app.py:86-104) cannot be reached.
- `librosa.load`, `librosa.beat.beat_track` and `librosa.feature.chroma_cqt`: foreign signal-processing code. The primary tempo and the chroma matrix are inputs. The `np.squeeze`/`float` conversions are type plumbing and are not modelled.
- Floating point: tempos and energies are Dafny reals. NaN, infinities and rounding error are not modelled, including numpy's own summation order and `argmax`'s treatment of NaN.
- `Key.EstimateKey`: requires a 12-row chroma matrix, because `chroma_cqt` always produces 12 rows. The model does not say what indexing the 12 names with a larger index would do.
- The temporary upload file, its write and its removal in `finally` (app.py:69-71, 81-83): file-system I/O.
- The Streamlit page, the HTML buttons and the footer: presentation only.
- The `REPERTORIO` catalogue data is not part of this model. `FilterSongs` takes the catalogue as a parameter.
- `Text.Lower`, `Text.Strip`, `Text.Split`: Python's Unicode-aware `lower`, `strip` and `split` are modelled over ASCII only. Non-ASCII whitespace (such as U+0085 or U+00A0) is not whitespace here. Non-ASCII capitals are not lowered.
- `Text.Split`: the contract states that the words are non-empty, free of whitespace, occur in the input, and that there are none exactly for a blank input. It does not state that the words are exactly the maximal non-whitespace runs of the input, nor that they come in the input's order; a single word of the input satisfies it for an input with several.
- `SearchLinks.YoutubeLink` and `SearchLinks.CifraClubLink`: the no-space, no-parenthesis and no-upper-case properties are stated for the query after the fixed prefix, not for the prefix literal.
