/** Class tests. CSS splits a class attribute into words; the compiled XPath normalizes
    its white space and looks for the class between two spaces. */
module ClassWords {
  import Css
  import X = XPath

  predicate SpaceFree(word: string) {
    word != "" && forall j | 0 <= j < |word| :: !Css.IsSpace(word[j])
  }

  lemma {:induction false} WordsAreSpaceFree(text: string)
    ensures forall w :: w in X.Words(text) ==> w != "" && forall j | 0 <= j < |w| :: !X.IsSpace(w[j])
    decreases |text|
  {
    if text != "" {
      if X.IsSpace(text[0]) {
        WordsAreSpaceFree(text[1..]);
      } else {
        WordsAreSpaceFree(text[X.WordLength(text)..]);
      }
    }
  }

  ghost predicate XmlWord(word: string) { word != "" && forall j | 0 <= j < |word| :: !X.IsSpace(word[j]) }

  lemma Shifted(text: string, word: string, n: nat, i: nat)
    requires n <= |text| && 0 < i
    ensures Css.WordAt(text[n..], word, X.IsSpace, i) <==> Css.WordAt(text, word, X.IsSpace, n + i)
  {
    if n + i + |word| <= |text| {
      assert text[n..][i..i + |word|] == text[n + i..n + i + |word|];
    }
  }

  lemma DropSpace(text: string, word: string)
    requires text != "" && X.IsSpace(text[0]) && XmlWord(word)
    ensures Css.HasWord(text, word, X.IsSpace) <==> Css.HasWord(text[1..], word, X.IsSpace)
  {
    if i :| Css.WordAt(text, word, X.IsSpace, i) {
      assert text[i..i + |word|][0] == text[i];
      if i == 1 {
        assert text[1..][0..|word|] == text[1..1 + |word|];
        assert Css.WordAt(text[1..], word, X.IsSpace, 0);
      } else {
        Shifted(text, word, 1, i - 1);
      }
    }
    if i :| Css.WordAt(text[1..], word, X.IsSpace, i) {
      if i == 0 {
        assert text[1..][0..|word|] == text[1..1 + |word|];
        assert Css.WordAt(text, word, X.IsSpace, 1);
      } else {
        Shifted(text, word, 1, i);
      }
    }
  }

  lemma DropWord(text: string, word: string)
    requires 0 < X.WordLength(text) && XmlWord(word)
    ensures Css.HasWord(text, word, X.IsSpace)
            <==> word == text[..X.WordLength(text)] || Css.HasWord(text[X.WordLength(text)..], word, X.IsSpace)
  {
    var n := X.WordLength(text);
    if word == text[..n] { assert Css.WordAt(text, word, X.IsSpace, 0); }
    if i :| Css.WordAt(text[n..], word, X.IsSpace, i) {
      assert text[n..][i..i + |word|][0] == text[n..][i];
      assert i != 0;
      Shifted(text, word, n, i);
    }
    if i :| Css.WordAt(text, word, X.IsSpace, i) {
      assert text[i..i + |word|][0] == text[i];
      if i == 0 {
        FirstWord(text, word);
      } else {
        assert n < i;
        Shifted(text, word, n, i - n);
      }
    }
  }

  lemma FirstWord(text: string, word: string)
    requires XmlWord(word) && Css.WordAt(text, word, X.IsSpace, 0)
    ensures word == text[..X.WordLength(text)]
  {
    var n := X.WordLength(text);
    assert forall j | 0 <= j < |word| :: word[j] == text[..|word|][j] == text[j];
    assert |word| == n;
  }

  /** The words of a text are its maximal pieces free of white space. */
  lemma {:induction false} WordsAreWords(text: string, word: string)
    requires XmlWord(word)
    ensures word in X.Words(text) <==> Css.HasWord(text, word, X.IsSpace)
    decreases |text|
  {
    if text == "" {
    } else if X.IsSpace(text[0]) {
      WordsAreWords(text[1..], word);
      DropSpace(text, word);
    } else {
      WordsAreWords(text[X.WordLength(text)..], word);
      DropWord(text, word);
    }
  }

  /** A word stands between two spaces of the padded list exactly when it is in the list. */
  lemma {:induction false} PaddedContains(words: seq<string>, word: string)
    requires XmlWord(word) && forall w | w in words :: XmlWord(w)
    ensures X.Contains(" " + X.Join(words) + " ", " " + word + " ") <==> word in words
  {
    var text, part := " " + X.Join(words) + " ", " " + word + " ";
    if words == [] {
    } else {
      PaddedContains(words[1..], word);
      var first, rest := words[0], " " + X.Join(words[1..]) + " ";
      assert |words| == 1 ==> words == [first] && text == " " + first + " ";
      assert |words| > 1 ==> text == " " + first + rest;
      PaddedFirst(first, if |words| == 1 then " " else rest, word);
      if |words| == 1 && X.Contains(" ", part) { }
    }
  }

  /** In " first" followed by a text that begins with a space, a padded word is found
      either at the front, as first itself, or within the text that follows. */
  lemma PaddedFirst(first: string, rest: string, word: string)
    requires XmlWord(first) && XmlWord(word) && rest != "" && rest[0] == ' '
    ensures X.Contains(" " + first + rest, " " + word + " ") <==> word == first || X.Contains(rest, " " + word + " ")
  {
    var text, part, n := " " + first + rest, " " + word + " ", 1 + |first|;
    assert text[n..] == rest;
    if word == first {
      assert text[..n + 1] == part;
      assert X.PartAt(text, part, 0);
    }
    if i :| X.PartAt(rest, part, i) {
      assert text[n + i..n + i + |part|] == rest[i..i + |part|];
      assert X.PartAt(text, part, n + i);
    }
    if i :| X.PartAt(text, part, i) {
      if i == 0 { PaddedFront(first, rest, word); } else { PaddedLater(first, rest, word, i); }
    }
  }

  lemma PaddedFront(first: string, rest: string, word: string)
    requires XmlWord(first) && XmlWord(word) && rest != "" && rest[0] == ' '
    requires X.PartAt(" " + first + rest, " " + word + " ", 0)
    ensures word == first
  {
    var text, part := " " + first + rest, " " + word + " ";
    forall j | 0 <= j < |part| ensures text[j] == part[j] { assert text[..|part|][j] == text[j]; }
    assert forall j | 0 <= j < |word| :: part[j + 1] == word[j];
    assert forall j | 0 <= j < |first| :: text[j + 1] == first[j];
    assert part[|word| + 1] == ' ' && text[|first| + 1] == ' ';
    assert |word| == |first|;
  }

  lemma PaddedLater(first: string, rest: string, word: string, i: int)
    requires XmlWord(first) && rest != "" && rest[0] == ' ' && 0 < i
    requires X.PartAt(" " + first + rest, " " + word + " ", i)
    ensures X.Contains(rest, " " + word + " ")
  {
    var text, part, n := " " + first + rest, " " + word + " ", 1 + |first|;
    assert text[i] == text[i..i + |part|][0] == ' ';
    assert forall j | 0 <= j < |first| :: text[j + 1] == first[j];
    assert text[n..] == rest;
    assert rest[i - n..i - n + |part|] == text[i..i + |part|];
    assert X.PartAt(rest, part, i - n);
  }

  /** What the compiled class test finds: the words of the attribute between XML's white
      space, which lacks the form feed of CSS. */
  lemma ClassTestAgrees(text: string, word: string)
    requires XmlWord(word)
    ensures X.Contains(" " + X.NormalizeSpace(text) + " ", " " + word + " ") <==> Css.HasWord(text, word, X.IsSpace)
  {
    WordsAreSpaceFree(text);
    PaddedContains(X.Words(text), word);
    WordsAreWords(text, word);
  }

  /** Every class of an element the test finds is one in CSS. */
  lemma XmlWordIsClass(text: string, word: string)
    requires SpaceFree(word) && Css.HasWord(text, word, X.IsSpace)
    ensures Css.HasWord(text, word, Css.IsSpace)
  {
    var i :| Css.WordAt(text, word, X.IsSpace, i);
    assert Css.WordAt(text, word, Css.IsSpace, i);
  }

  /** A class the test misses: CSS finds it only next to a form feed. */
  ghost predicate FoundInBoth(text: string, word: string) {
    Css.HasWord(text, word, Css.IsSpace) ==> Css.HasWord(text, word, X.IsSpace)
  }

  /** No form feed touches a character that is not white space. */
  predicate FormFeedsApart(text: string) {
    forall j | 0 <= j < |text| && text[j] == '\U{000C}' ::
      (0 < j ==> Css.IsSpace(text[j - 1])) && (j + 1 < |text| ==> Css.IsSpace(text[j + 1]))
  }

  /** Where form feeds stand apart from the classes, no class is missed. */
  lemma ApartIsFound(text: string, word: string)
    requires FormFeedsApart(text) && SpaceFree(word)
    ensures FoundInBoth(text, word)
  {
    if i :| Css.WordAt(text, word, Css.IsSpace, i) {
      var end := i + |word|;
      assert text[i] == text[i..end][0] == word[0] && text[end - 1] == text[i..end][|word| - 1] == word[|word| - 1];
      assert Css.WordAt(text, word, X.IsSpace, i);
    }
  }
}
