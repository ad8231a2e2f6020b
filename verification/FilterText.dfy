/** Text as filters compare it (internal/filter/text.go): Go strings read as runes, where
    a byte that is not UTF-8 counts as one rune and reads as the replacement character. */
module FilterText {
  datatype Rune = Char(code: nat) | BadByte(value: nat)

  type Text = seq<Rune>

  /** What the model takes from outside: the least code of a character's simple-fold
      orbit, and the visible text of an HTML fragment. */
  datatype Unicode = Unicode(fold: nat -> nat, describe: Text -> Text)

  /** unicode.IsSpace. */
  predicate IsSpace(r: Rune) {
    && r.Char?
    && (9 <= r.code <= 13 || r.code == 32 || r.code == 0x85 || r.code == 0xA0 || r.code == 0x1680
        || 0x2000 <= r.code <= 0x200A || r.code == 0x2028 || r.code == 0x2029 || r.code == 0x202F
        || r.code == 0x205F || r.code == 0x3000)
  }

  /** The 25 codes that Unicode calls white space. */
  lemma SpaceCodes(r: Rune)
    ensures IsSpace(r)
            <==> r.Char? && r.code in {0x09, 0x0A, 0x0B, 0x0C, 0x0D, 0x20, 0x85, 0xA0, 0x1680, 0x2000, 0x2001, 0x2002,
                                       0x2003, 0x2004, 0x2005, 0x2006, 0x2007, 0x2008, 0x2009, 0x200A, 0x2028, 0x2029,
                                       0x202F, 0x205F, 0x3000}
  {
  }

  /** How many runes a word at the start of the text has. */
  function WordLength(s: Text): (n: nat)
    ensures n <= |s|
    ensures s != [] && !IsSpace(s[0]) ==> 0 < n
  {
    if s == [] || IsSpace(s[0]) then 0 else 1 + WordLength(s[1..])
  }

  /** strings.Fields. */
  function Fields(s: Text): seq<Text>
    decreases |s|
  {
    if s == [] then []
    else if IsSpace(s[0]) then Fields(s[1..])
    else [s[..WordLength(s)]] + Fields(s[WordLength(s)..])
  }

  const SPACE := Char(32)

  function Joined(words: seq<Text>): Text {
    if words == [] then [] else if |words| == 1 then words[0] else words[0] + [SPACE] + Joined(words[1..])
  }

  /** How a rune reads: a bad byte as the replacement character. */
  function Code(r: Rune): nat { if r.Char? then r.code else 0xFFFD }

  function Folded(u: Unicode, s: Text): Text {
    seq(|s|, i requires 0 <= i < |s| => Char(u.fold(Code(s[i]))))
  }

  /** normalize: words apart by one space, each character its fold representative. */
  function Normalize(u: Unicode, s: Text): Text { Folded(u, Joined(Fields(s))) }

  function TrimLeft(s: Text): Text {
    if s != [] && IsSpace(s[0]) then TrimLeft(s[1..]) else s
  }

  function TrimRight(s: Text): Text {
    if s != [] && IsSpace(s[|s| - 1]) then TrimRight(s[..|s| - 1]) else s
  }

  /** strings.TrimSpace. */
  function TrimSpace(s: Text): Text { TrimRight(TrimLeft(s)) }

  predicate ValidString(s: Text) { forall i :: 0 <= i < |s| ==> s[i].Char? }

  predicate OccursAt(s: Text, part: Text, i: int) { 0 <= i <= |s| - |part| && s[i..i + |part|] == part }

  /** strings.Contains. */
  predicate Contains(s: Text, part: Text) { exists i :: 0 <= i <= |s| && OccursAt(s, part, i) }

  lemma {:induction false} TrimLeftKeepsFields(s: Text)
    ensures Fields(TrimLeft(s)) == Fields(s)
  {
    if s != [] && IsSpace(s[0]) { TrimLeftKeepsFields(s[1..]); }
  }

  lemma {:induction false} WordBeforeSpace(s: Text, space: Rune)
    requires IsSpace(space)
    ensures WordLength(s + [space]) == WordLength(s)
  {
    if s != [] && !IsSpace(s[0]) {
      assert (s + [space])[1..] == s[1..] + [space];
      WordBeforeSpace(s[1..], space);
    }
  }

  lemma {:induction false} SpaceAddsNoField(s: Text, space: Rune)
    requires IsSpace(space)
    ensures Fields(s + [space]) == Fields(s)
    decreases |s|
  {
    var all := s + [space];
    if s == [] {
      assert all[1..] == [];
    } else if IsSpace(s[0]) {
      assert all[1..] == s[1..] + [space];
      SpaceAddsNoField(s[1..], space);
    } else {
      WordBeforeSpace(s, space);
      var n := WordLength(s);
      assert all[..n] == s[..n] && all[n..] == s[n..] + [space];
      SpaceAddsNoField(s[n..], space);
    }
  }

  lemma {:induction false} TrimRightKeepsFields(s: Text)
    ensures Fields(TrimRight(s)) == Fields(s)
    decreases |s|
  {
    if s != [] && IsSpace(s[|s| - 1]) {
      TrimRightKeepsFields(s[..|s| - 1]);
      SpaceAddsNoField(s[..|s| - 1], s[|s| - 1]);
      assert s[..|s| - 1] + [s[|s| - 1]] == s;
    }
  }

  /** Trimming a keyword before normalizing it, as Compile does, changes nothing. */
  lemma TrimmingIsAbsorbed(u: Unicode, s: Text)
    ensures Normalize(u, TrimSpace(s)) == Normalize(u, s)
  {
    TrimLeftKeepsFields(s);
    TrimRightKeepsFields(TrimLeft(s));
  }

  // ---------------------------------------------------------------- what normalizing means

  /** Two runes a reader of any case takes for the same. */
  predicate SameLetter(u: Unicode, a: Rune, b: Rune) { u.fold(Code(a)) == u.fold(Code(b)) }

  predicate SameLetters(u: Unicode, a: Text, b: Text) {
    |a| == |b| && forall i :: 0 <= i < |a| ==> SameLetter(u, a[i], b[i])
  }

  /** Two texts normalize alike exactly when their words, one space apart, are the same but
      for case. */
  lemma NormalizedAlike(u: Unicode, a: Text, b: Text)
    ensures Normalize(u, a) == Normalize(u, b) <==> SameLetters(u, Joined(Fields(a)), Joined(Fields(b)))
  {
    var x, y := Joined(Fields(a)), Joined(Fields(b));
    if SameLetters(u, x, y) {
      assert Folded(u, x) == Folded(u, y);
    } else if Folded(u, x) == Folded(u, y) {
      forall i | 0 <= i < |x| ensures SameLetter(u, x[i], y[i]) { assert Folded(u, x)[i] == Folded(u, y)[i]; }
      assert false;
    }
  }

  /** The same text but for case, with white space in the same places. */
  predicate SameText(u: Unicode, a: Text, b: Text) {
    SameLetters(u, a, b) && forall i :: 0 <= i < |a| ==> (IsSpace(a[i]) <==> IsSpace(b[i]))
  }

  lemma SameTail(u: Unicode, a: Text, b: Text, n: nat)
    requires SameText(u, a, b) && n <= |a|
    ensures SameText(u, a[n..], b[n..]) && SameText(u, a[..n], b[..n])
  {
  }

  lemma {:induction false} SameWordLength(u: Unicode, a: Text, b: Text)
    requires SameText(u, a, b)
    ensures WordLength(a) == WordLength(b)
    decreases |a|
  {
    if a != [] && !IsSpace(a[0]) {
      SameTail(u, a, b, 1);
      SameWordLength(u, a[1..], b[1..]);
    }
  }

  predicate SameTexts(u: Unicode, a: seq<Text>, b: seq<Text>) {
    |a| == |b| && forall i :: 0 <= i < |a| ==> SameLetters(u, a[i], b[i])
  }

  lemma {:induction false} SameFields(u: Unicode, a: Text, b: Text)
    requires SameText(u, a, b)
    ensures SameTexts(u, Fields(a), Fields(b))
    decreases |a|
  {
    if a == [] {
    } else if IsSpace(a[0]) {
      SameTail(u, a, b, 1);
      SameFields(u, a[1..], b[1..]);
    } else {
      var n := WordLength(a);
      SameWordLength(u, a, b);
      SameTail(u, a, b, n);
      SameFields(u, a[n..], b[n..]);
      assert Fields(a) == [a[..n]] + Fields(a[n..]) && Fields(b) == [b[..n]] + Fields(b[n..]);
    }
  }

  lemma SameInFront(u: Unicode, a: Text, b: Text, c: Text, d: Text)
    requires SameLetters(u, a, b) && SameLetters(u, c, d)
    ensures SameLetters(u, a + c, b + d)
  {
  }

  lemma {:induction false} SameJoined(u: Unicode, a: seq<Text>, b: seq<Text>)
    requires SameTexts(u, a, b)
    ensures SameLetters(u, Joined(a), Joined(b))
    decreases |a|
  {
    if |a| > 1 {
      SameJoined(u, a[1..], b[1..]);
      SameInFront(u, a[0], b[0], [SPACE], [SPACE]);
      SameInFront(u, a[0] + [SPACE], b[0] + [SPACE], Joined(a[1..]), Joined(b[1..]));
    }
  }

  /** So case never matters. */
  lemma CaseIsAbsorbed(u: Unicode, a: Text, b: Text)
    requires SameText(u, a, b)
    ensures Normalize(u, a) == Normalize(u, b)
  {
    SameFields(u, a, b);
    SameJoined(u, Fields(a), Fields(b));
    NormalizedAlike(u, a, b);
  }

  // ---------------------------------------------------------------- words, trimming, containing

  predicate AllSpace(s: Text) { forall i :: 0 <= i < |s| ==> IsSpace(s[i]) }

  predicate NoSpace(s: Text) { forall i :: 0 <= i < |s| ==> !IsSpace(s[i]) }

  /** A text without its white space. */
  function Solid(s: Text): Text {
    if s == [] then [] else (if IsSpace(s[0]) then [] else [s[0]]) + Solid(s[1..])
  }

  function Concatenated(words: seq<Text>): Text {
    if words == [] then [] else words[0] + Concatenated(words[1..])
  }

  lemma {:induction false} WordIsSolid(s: Text)
    ensures NoSpace(s[..WordLength(s)]) && (WordLength(s) < |s| ==> IsSpace(s[WordLength(s)]))
    ensures Solid(s) == s[..WordLength(s)] + Solid(s[WordLength(s)..])
    decreases |s|
  {
    if s != [] && !IsSpace(s[0]) {
      var n := WordLength(s);
      WordIsSolid(s[1..]);
      assert s[1..][..n - 1] == s[1..n] && s[1..][n - 1..] == s[n..];
      assert s[..n] == [s[0]] + s[1..n];
    }
  }

  /** The fields are pieces of the text without white space, and together all of the rest
      of it in order. */
  lemma {:induction false} FieldsAreSolid(s: Text)
    ensures forall w :: w in Fields(s) ==> w != [] && NoSpace(w)
    ensures Concatenated(Fields(s)) == Solid(s)
    decreases |s|
  {
    if s == [] {
    } else if IsSpace(s[0]) {
      FieldsAreSolid(s[1..]);
    } else {
      WordIsSolid(s);
      FieldsAreSolid(s[WordLength(s)..]);
      var fields := Fields(s);
      assert fields[1..] == Fields(s[WordLength(s)..]);
    }
  }

  /** White space anywhere separates fields, and nothing else does. */
  lemma {:induction false} FieldsApart(a: Text, space: Rune, b: Text)
    requires IsSpace(space)
    ensures Fields(a + ([space] + b)) == Fields(a) + Fields(b)
    decreases |a|
  {
    var all := a + ([space] + b);
    if a == [] {
      assert all == [space] + b && all[1..] == b;
    } else if IsSpace(a[0]) {
      assert all[1..] == a[1..] + ([space] + b);
      FieldsApart(a[1..], space, b);
    } else {
      WordBefore(a, space, b);
      var n := WordLength(a);
      assert all[..n] == a[..n] && all[n..] == a[n..] + ([space] + b);
      FieldsApart(a[n..], space, b);
    }
  }

  lemma {:induction false} WordBefore(a: Text, space: Rune, b: Text)
    requires IsSpace(space)
    ensures WordLength(a + ([space] + b)) == WordLength(a)
    decreases |a|
  {
    if a != [] && !IsSpace(a[0]) {
      assert (a + ([space] + b))[1..] == a[1..] + ([space] + b);
      WordBefore(a[1..], space, b);
    }
  }

  lemma {:induction false} OneField(s: Text)
    requires s != [] && NoSpace(s)
    ensures Fields(s) == [s]
  {
    WholeWord(s);
    assert s[..|s|] == s && s[|s|..] == [];
  }

  /** Words one space apart read back as the same words. */
  lemma {:induction false} JoinedReadsBack(words: seq<Text>)
    requires forall w :: w in words ==> w != [] && NoSpace(w)
    ensures Fields(Joined(words)) == words
    decreases |words|
  {
    if words != [] {
      assert words[0] in words && forall w :: w in words[1..] ==> w in words;
      OneField(words[0]);
      if |words| == 1 {
        assert words == [words[0]];
      } else {
        JoinedReadsBack(words[1..]);
        FieldsApart(words[0], SPACE, Joined(words[1..]));
        assert words[0] + [SPACE] + Joined(words[1..]) == words[0] + ([SPACE] + Joined(words[1..]));
        assert words == [words[0]] + words[1..];
      }
    }
  }

  lemma {:induction false} WholeWord(s: Text)
    requires NoSpace(s)
    ensures WordLength(s) == |s|
    decreases |s|
  {
    if s != [] { WholeWord(s[1..]); }
  }

  /** Trimming takes white space off both ends and no more. */
  lemma {:induction false} TrimmedLeft(s: Text) returns (n: nat)
    ensures n <= |s| && AllSpace(s[..n]) && s[n..] == TrimLeft(s)
    ensures TrimLeft(s) != [] ==> !IsSpace(TrimLeft(s)[0])
    decreases |s|
  {
    n := 0;
    if s != [] && IsSpace(s[0]) {
      var k := TrimmedLeft(s[1..]);
      n := k + 1;
      assert s[..n] == [s[0]] + s[1..][..k] && s[n..] == s[1..][k..];
    }
  }

  lemma {:induction false} TrimmedRight(s: Text) returns (n: nat)
    ensures n <= |s| && AllSpace(s[n..]) && s[..n] == TrimRight(s)
    ensures TrimRight(s) != [] ==> !IsSpace(TrimRight(s)[|TrimRight(s)| - 1])
    decreases |s|
  {
    n := |s|;
    if s != [] && IsSpace(s[|s| - 1]) {
      n := TrimmedRight(s[..|s| - 1]);
      assert s[n..] == s[..|s| - 1][n..] + [s[|s| - 1]] && s[..n] == s[..|s| - 1][..n];
    }
  }

  lemma TrimmingMeans(s: Text) returns (a: Text, b: Text)
    ensures s == a + (TrimSpace(s) + b) && AllSpace(a) && AllSpace(b)
    ensures var t := TrimSpace(s); t != [] ==> !IsSpace(t[0]) && !IsSpace(t[|t| - 1])
  {
    var n := TrimmedLeft(s);
    var m := TrimmedRight(s[n..]);
    a, b := s[..n], s[n..][m..];
    assert s == s[..n] + s[n..] && s[n..] == s[n..][..m] + s[n..][m..];
  }

  lemma SpaceAround(s: Text, i: nat, j: nat)
    requires i <= j <= |s| && AllSpace(s[..i]) && AllSpace(s[j..])
    ensures forall k | 0 <= k < i || j <= k < |s| :: IsSpace(s[k])
  {
    forall k | 0 <= k < i || j <= k < |s| ensures IsSpace(s[k]) {
      assert if k < i then s[..i][k] == s[k] else s[j..][k - j] == s[k];
    }
  }

  lemma TrimmedBounds(s: Text) returns (n: nat, m: nat)
    ensures n <= m <= |s| && s[n..m] == TrimSpace(s) && AllSpace(s[..n]) && AllSpace(s[m..])
    ensures n < m ==> !IsSpace(s[n]) && !IsSpace(s[m - 1])
  {
    n := TrimmedLeft(s);
    var k := TrimmedRight(s[n..]);
    m := n + k;
    assert s[n..][..k] == s[n..m] && s[n..][k..] == s[m..];
    if n < m { assert s[n] == s[n..][0] && s[m - 1] == s[n..m][k - 1]; }
  }

  /** Trimming finds the text between white space. */
  lemma TrimmedTo(s: Text, i: nat, j: nat)
    requires i < j <= |s| && AllSpace(s[..i]) && AllSpace(s[j..]) && !IsSpace(s[i]) && !IsSpace(s[j - 1])
    ensures TrimSpace(s) == s[i..j]
  {
    var n, m := TrimmedBounds(s);
    SpaceAround(s, i, j);
    SpaceAround(s, n, m);
    assert n <= i < m && i == n && m == j;
  }

  /** A text contains what stands in it, and only that. */
  lemma ContainsPart(a: Text, part: Text, b: Text)
    ensures Contains(a + (part + b), part)
  {
    assert OccursAt(a + (part + b), part, |a|);
  }

  lemma PartContained(s: Text, part: Text) returns (a: Text, b: Text)
    requires Contains(s, part)
    ensures s == a + (part + b)
  {
    var i :| 0 <= i <= |s| && OccursAt(s, part, i);
    a, b := s[..i], s[i + |part|..];
  }
}
