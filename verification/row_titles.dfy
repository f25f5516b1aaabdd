/**
 * Facts about the fixed titles of the TV home rows (src/pages/Home.jsx):
 * which of the content-kind words each title contains.
 */
module RowTitles {
  import Text

  /** The title names none of the content kinds. */
  predicate NoKindWord(title: string) {
    && !Text.Contains(title, "Canales") && !Text.Contains(title, "Series")
    && !Text.Contains(title, "Animes") && !Text.Contains(title, "Doramas")
    && !Text.Contains(title, "Novelas") && !Text.Contains(title, "Documentales")
  }

  /** A title lacking some character of the pattern does not contain it. */
  lemma MissingChar(s: string, pat: string, c: char)
    requires c in pat && c !in s
    ensures !Text.Contains(s, pat)
  {
    var k :| 0 <= k < |pat| && pat[k] == c;
    forall i | 0 <= i <= |s| - |pat| ensures !Text.OccursAt(s, pat, i) {
      assert s[i..i + |pat|][k] == s[i + k];
    }
  }

  /** A title that starts with the pattern contains it. */
  lemma StartsWith(s: string, pat: string)
    requires |pat| <= |s| && s[..|pat|] == pat
    ensures Text.Contains(s, pat)
  {
    assert Text.OccursAt(s, pat, 0);
  }

  /** A title drawn from an alphabet lacking one character of each kind word names no kind. */
  lemma NoKindWordBy(title: string, alphabet: set<char>, c1: char, c2: char, c3: char, c4: char, c5: char, c6: char)
    requires forall c :: c in title ==> c in alphabet
    requires c1 in "Canales" && c1 !in alphabet && c2 in "Series" && c2 !in alphabet
    requires c3 in "Animes" && c3 !in alphabet && c4 in "Doramas" && c4 !in alphabet
    requires c5 in "Novelas" && c5 !in alphabet && c6 in "Documentales" && c6 !in alphabet
    ensures NoKindWord(title)
  {
    MissingChar(title, "Canales", c1);
    MissingChar(title, "Series", c2);
    MissingChar(title, "Animes", c3);
    MissingChar(title, "Doramas", c4);
    MissingChar(title, "Novelas", c5);
    MissingChar(title, "Documentales", c6);
  }

  /** The featured-movies row title names no kind. */
  lemma MoviesTitleNamesNoKind()
    ensures NoKindWord("Películas Destacadas")
  {
    NoKindWordBy("Películas Destacadas", {'P', 'e', 'l', 'í', 'c', 'u', 'a', 's', ' ', 'D', 't', 'd'}, 'C', 'S', 'A', 'm', 'N', 'm');
  }

  /** The recently-added row title names no kind. */
  lemma RecentTitleNamesNoKind()
    ensures NoKindWord("Recién Agregados")
  {
    NoKindWordBy("Recién Agregados", {'R', 'e', 'c', 'i', 'é', 'n', ' ', 'A', 'g', 'r', 'a', 'd', 'o', 's'}, 'C', 'S', 'm', 'D', 'N', 'D');
  }

  /** The continue-watching row title names no kind. */
  lemma ContinueTitleNamesNoKind()
    ensures NoKindWord("Continuar Viendo")
  {
    NoKindWordBy("Continuar Viendo", {'C', 'o', 'n', 't', 'i', 'u', 'a', 'r', ' ', 'V', 'e', 'd'}, 'l', 'S', 'A', 'D', 'N', 'D');
  }
}
