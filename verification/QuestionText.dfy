/** Canonical question texts: what two texts share when they count as the same question. */
module QuestionText {

  import opened Text

  /** What the Unicode tables say: which runes are letters or digits, and lower case, which is
      final and changes no white space. */
  datatype Alphabet = Alphabet(isWord: char -> bool, lower: char -> char) {
    ghost predicate Valid() {
      && (forall c :: IsSpace(c) ==> !isWord(c) && lower(c) == c)
      && (forall c :: lower(lower(c)) == lower(c))
    }
  }

  /** The text with every rune in lower case and every other rune than letters and digits
      replaced by a space. */
  function Plain(a: Alphabet, s: string): string {
    seq(|s|, i requires 0 <= i < |s| => PlainRune(a, s[i]))
  }

  function PlainRune(a: Alphabet, c: char): char {
    if a.isWord(a.lower(c)) then a.lower(c) else ' '
  }

  lemma PlainSpace(a: Alphabet, c: char)
    requires a.Valid()
    ensures IsSpace(c) ==> PlainRune(a, c) == ' '
    ensures IsSpace(PlainRune(a, c)) ==> PlainRune(a, c) == ' '
    ensures a.isWord(a.lower(c)) <==> PlainRune(a, c) != ' '
  {
  }

  /** The words of a question: its maximal stretches of letters and digits, in lower case. */
  function Words(a: Alphabet, q: string): seq<string> {
    Fields(Plain(a, q))
  }

  /** One space for each stretch of spaces, and none in front if `lastSpace`. */
  function Squeezed(s: string, lastSpace: bool): string {
    if s == "" then ""
    else if s[0] != ' ' then [s[0]] + Squeezed(s[1..], false)
    else if lastSpace then Squeezed(s[1..], true)
    else " " + Squeezed(s[1..], true)
  }

  /** `s` has no white space but spaces. */
  predicate OnlySpaces(s: string) {
    forall i :: 0 <= i < |s| && IsSpace(s[i]) ==> s[i] == ' '
  }

  lemma {:induction false} SqueezedRun(s: string, n: nat)
    requires n <= |s| && forall i :: 0 <= i < n ==> s[i] != ' '
    ensures Squeezed(s, false) == s[..n] + Squeezed(s[n..], false)
  {
    if n > 0 {
      SqueezedRun(s[1..], n - 1);
      assert s[1..][n - 1..] == s[n..];
      assert s[..n] == [s[0]] + s[1..][..n - 1];
    }
  }

  lemma SqueezedNext(s: string, i: nat, lastSpace: bool)
    requires i < |s|
    ensures Squeezed(s[i..], lastSpace) ==
            if s[i] != ' ' then [s[i]] + Squeezed(s[i + 1..], false)
            else (if lastSpace then "" else " ") + Squeezed(s[i + 1..], true)
  {
    assert s[i..][1..] == s[i + 1..];
  }

  lemma SqueezedNone(s: string, lastSpace: bool)
    ensures Squeezed(s[|s|..], lastSpace) == ""
  {
  }

  lemma WordIsPlain(a: Alphabet, c: char)
    ensures a.isWord(a.lower(c)) ==> PlainRune(a, c) == a.lower(c)
  {
  }

  lemma PlainHasSpaces(a: Alphabet, s: string)
    requires a.Valid()
    ensures OnlySpaces(Plain(a, s))
  {
    hide IsSpace, PlainRune;
    hide Alphabet.Valid;
    forall i | 0 <= i < |s|
      ensures IsSpace(PlainRune(a, s[i])) ==> PlainRune(a, s[i]) == ' '
    {
      PlainSpace(a, s[i]);
    }
  }

  /** Squeezing leaves the fields. */
  lemma {:induction false} FieldsOfSqueezed(s: string)
    requires OnlySpaces(s)
    ensures Fields(Squeezed(s, true)) == Fields(s)
    decreases |s|
  {
    if s == "" {
    } else if s[0] == ' ' {
      FieldsOfSqueezed(s[1..]);
    } else {
      var n := Run(Space, s);
      var w, rest := s[..n], s[n..];
      assert s == w + rest;
      assert Squeezed(s, true) == Squeezed(s, false);
      SqueezedRun(s, n);
      var tail := Squeezed(rest, false);
      SplitPeels(Space, w, rest);
      SplitPeels(Space, w, tail);
      if rest != "" {
        FieldsOfSqueezed(rest[1..]);
        assert tail[1..] == Squeezed(rest[1..], true);
      }
    }
  }

  /** One pass over the text, writing letters and digits as they are and at most one space for
      anything between them; then the fields are joined again. */
  method NormalizeQuestion(a: Alphabet, q: string) returns (r: string)
    requires a.Valid()
    ensures r == Join(Words(a, q), " ")
  {
    hide Trim, Squeezed, IsSpace, Fields, Join, PlainRune;
    hide Alphabet.Valid;
    var lowered := Lowered(a, Trim(q));
    var builder, lastSpace := "", true;
    ghost var plain := Plain(a, Trim(q));
    assert plain[0..] == plain;
    for i := 0 to |lowered|
      invariant builder + Squeezed(plain[i..], lastSpace) == Squeezed(plain, true)
    {
      var c := lowered[i];
      SqueezedNext(plain, i, lastSpace);
      PlainSpace(a, Trim(q)[i]);
      WordIsPlain(a, Trim(q)[i]);
      ghost var rest := Squeezed(plain[i + 1..], plain[i] == ' ');
      Assoc(builder, [plain[i]], rest);
      if a.isWord(c) {
        builder := builder + [c];
        lastSpace := false;
      } else if !lastSpace {
        builder := builder + " ";
        lastSpace := true;
      }
    }
    SqueezedNone(plain, lastSpace);
    assert builder + "" == builder;
    PlainHasSpaces(a, Trim(q));
    FieldsOfSqueezed(plain);
    FieldsOfTrim(builder);
    WordsOfTrim(a, q);
    r := Join(Fields(Trim(builder)), " ");
  }

  function Lowered(a: Alphabet, s: string): string {
    seq(|s|, i requires 0 <= i < |s| => a.lower(s[i]))
  }

  lemma SpaceInFront(s: string)
    requires s != "" && s[0] == ' '
    ensures Fields(s) == Fields(s[1..])
  {
  }

  lemma WordsSkipSpace(a: Alphabet, q: string)
    requires a.Valid() && q != "" && IsSpace(q[0])
    ensures Words(a, q) == Words(a, q[1..])
  {
    hide PlainRune, IsSpace, Fields;
    hide Alphabet.Valid;
    PlainSpace(a, q[0]);
    SpaceInFront(Plain(a, q));
    assert Plain(a, q)[1..] == Plain(a, q[1..]);
  }

  lemma {:induction false} WordsOfTrimLeft(a: Alphabet, q: string)
    requires a.Valid()
    ensures Words(a, TrimLeft(q)) == Words(a, q)
  {
    hide Words, IsSpace;
    hide Alphabet.Valid;
    if q != "" && IsSpace(q[0]) {
      WordsOfTrimLeft(a, q[1..]);
      WordsSkipSpace(a, q);
    }
  }

  lemma {:induction false} WordsOfTrimRight(a: Alphabet, q: string)
    requires a.Valid()
    ensures Words(a, TrimRight(q)) == Words(a, q)
  {
    hide PlainRune;
    hide Alphabet.Valid;
    if q != "" && IsSpace(q[|q| - 1]) {
      var r := q[..|q| - 1];
      PlainSpace(a, q[|q| - 1]);
      WordsOfTrimRight(a, r);
      assert Plain(a, q) == Plain(a, r) + " ";
      SplitOfConcat(Space, Plain(a, r), " ");
      assert " "[1..] == "";
    }
  }

  lemma WordsOfTrim(a: Alphabet, q: string)
    requires a.Valid()
    ensures Words(a, Trim(q)) == Words(a, q)
  {
    WordsOfTrimLeft(a, q);
    WordsOfTrimRight(a, TrimLeft(q));
  }

  /** A stretch of letters and digits is one word, in lower case. */
  lemma WordsOfWord(a: Alphabet, w: string)
    requires a.Valid() && w != "" && forall i :: 0 <= i < |w| ==> a.isWord(a.lower(w[i]))
    ensures Words(a, w) == [seq(|w|, i requires 0 <= i < |w| => a.lower(w[i]))]
  {
    hide IsSpace, Split;
    hide Alphabet.Valid;
    var plain := Plain(a, w);
    PlainHasSpaces(a, w);
    forall i | 0 <= i < |w|
      ensures plain[i] == a.lower(w[i]) && !IsSpace(plain[i])
    {
      PlainSpace(a, w[i]);
    }
    SplitOfField(Space, plain);
    assert plain == seq(|w|, i requires 0 <= i < |w| => a.lower(w[i]));
  }

  /** Any other rune stands between words, and is in none. With the lemma before, this says what
      the words of every text are. */
  lemma WordsEndAt(a: Alphabet, p: string, c: char, q: string)
    requires !a.isWord(a.lower(c))
    ensures Words(a, p + [c] + q) == Words(a, p) + Words(a, q)
    ensures Words(a, "") == []
  {
    assert IsSpace(' ');
    hide IsSpace;
    assert Plain(a, p + [c] + q) == Plain(a, p) + (" " + Plain(a, q));
    SplitOfConcat(Space, Plain(a, p), " " + Plain(a, q));
    SpaceInFront(" " + Plain(a, q));
    assert (" " + Plain(a, q))[1..] == Plain(a, q);
  }

  /** The canonical text, by which questions are stored and counted. */
  function Canonical(a: Alphabet, q: string): string {
    Join(Words(a, q), " ")
  }

  lemma WordsAreFields(a: Alphabet, q: string)
    ensures forall k :: 0 <= k < |Words(a, q)| ==> IsField(Space, Words(a, q)[k])
  {
    SplitGivesFields(Space, Plain(a, q));
  }

  /** Two questions have one canonical text exactly when they have the same words in the same
      order, whatever their case, punctuation and spacing. */
  lemma SameQuestionIff(a: Alphabet, p: string, q: string)
    ensures Canonical(a, p) == Canonical(a, q) <==> Words(a, p) == Words(a, q)
  {
    WordsAreFields(a, p);
    WordsAreFields(a, q);
    FieldsOfJoin(Words(a, p));
    FieldsOfJoin(Words(a, q));
  }

  /** Only spaces, letters and digits, all in lower case. */
  predicate IsPlain(a: Alphabet, s: string) {
    forall i :: 0 <= i < |s| ==> s[i] == ' ' || (a.isWord(s[i]) && a.lower(s[i]) == s[i])
  }

  lemma {:induction false} FieldsPlain(a: Alphabet, s: string)
    requires IsPlain(a, s)
    ensures forall k :: 0 <= k < |Fields(s)| ==> IsPlain(a, Fields(s)[k])
  {
    if s != "" {
      if IsSpace(s[0]) {
        FieldsPlain(a, s[1..]);
        assert Fields(s) == Fields(s[1..]);
      } else {
        var n := Run(Space, s);
        FieldsPlain(a, s[n..]);
        assert Fields(s) == [s[..n]] + Fields(s[n..]);
      }
    }
  }

  lemma {:induction false} JoinPlain(a: Alphabet, ws: seq<string>)
    requires forall k :: 0 <= k < |ws| ==> IsPlain(a, ws[k])
    ensures IsPlain(a, Join(ws, " "))
  {
    if |ws| > 1 {
      JoinPlain(a, ws[1..]);
    }
  }

  /** The canonical text is its own canonical text. */
  lemma CanonicalIsFinal(a: Alphabet, q: string)
    requires a.Valid()
    ensures Canonical(a, Canonical(a, q)) == Canonical(a, q)
  {
    var c := Canonical(a, q);
    assert IsPlain(a, Plain(a, q));
    FieldsPlain(a, Plain(a, q));
    JoinPlain(a, Words(a, q));
    assert Plain(a, c) == c;
    WordsAreFields(a, q);
    FieldsOfJoin(Words(a, q));
  }
}
