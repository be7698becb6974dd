/** The summary service: the two marked sections of a model's reply, the keyword list, the
    length limit, and the stream of partial summaries. Runes are taken to be one byte long and
    case folding to be that of ASCII letters. */
module Summarizer {

  import opened Text

  datatype Result<T> = Ok(value: T) | Err(error: Error)

  datatype Error = EmptyReply | NoSummarySection | EmptySummary

  datatype Summary = Summary(text: string, keywords: seq<string>)

  const SUMMARY := "SUMMARY:"
  const KEYWORDS := "KEYWORDS:"

  /* ---------- Finding a marker ---------- */

  function LowerOf(c: char): char {
    if 'A' <= c <= 'Z' then c - 'A' + 'a' else c
  }

  /** `marker` stands at `i`, in any mixture of cases. */
  predicate MarkerAt(s: string, marker: string, i: nat) {
    i + |marker| <= |s| && forall k :: 0 <= k < |marker| ==> LowerOf(s[i + k]) == LowerOf(marker[k])
  }

  /** Two letters are the same but for their case. */
  lemma SameLetterIff(a: char, b: char)
    ensures LowerOf(a) == LowerOf(b) <==>
              || a == b
              || ('A' <= a <= 'Z' && b as int == a as int + 32)
              || ('A' <= b <= 'Z' && a as int == b as int + 32)
  {
  }

  predicate Contains(s: string, marker: string) {
    exists i: nat :: i <= |s| && MarkerAt(s, marker, i)
  }

  function FindFrom(s: string, marker: string, i: nat): (r: int)
    requires i <= |s|
    ensures r == -1 || i <= r <= |s|
    ensures r >= 0 ==> MarkerAt(s, marker, r)
    ensures forall k: nat :: i <= k && (r == -1 || k < r) ==> !MarkerAt(s, marker, k)
    decreases |s| - i
  {
    if MarkerAt(s, marker, i) then i
    else if i == |s| then -1
    else FindFrom(s, marker, i + 1)
  }

  function FindMarker(s: string, marker: string): (r: int)
    ensures r == -1 <==> !Contains(s, marker)
    ensures r >= 0 ==> r + |marker| <= |s| && MarkerAt(s, marker, r)
    ensures forall k: nat :: r >= 0 && k < r ==> !MarkerAt(s, marker, k)
    ensures r >= -1
  {
    FindFrom(s, marker, 0)
  }

  lemma FirstMarker(s: string, marker: string, i: nat)
    requires MarkerAt(s, marker, i)
    requires forall k: nat :: k < i ==> !MarkerAt(s, marker, k)
    ensures FindMarker(s, marker) == i
  {
    assert Contains(s, marker);
  }

  /* ---------- The reply ---------- */

  /** What follows the summary marker, up to the keyword marker. */
  function SummarySection(body: string): string {
    var k := FindMarker(body, KEYWORDS);
    if k == -1 then body else body[..k]
  }

  function KeywordSection(body: string): string {
    var k := FindMarker(body, KEYWORDS);
    if k == -1 then "" else body[k + |KEYWORDS|..]
  }

  function Parse(content: string, limit: int): Result<Summary> {
    var c := Trim(content);
    if c == "" then
      Err(EmptyReply)
    else
      var i := FindMarker(c, SUMMARY);
      if i == -1 then
        Err(NoSummarySection)
      else
        var body := c[i + |SUMMARY|..];
        var text := Trim(SummarySection(body));
        if text == "" then Err(EmptySummary) else Ok(Summary(text, Keywords(KeywordSection(body), limit)))
  }

  function ExtractSummary(content: string): string {
    var c := Trim(content);
    if c == "" then
      ""
    else
      var i := FindMarker(c, SUMMARY);
      if i == -1 then c else Trim(SummarySection(c[i + |SUMMARY|..]))
  }

  function Truncate(text: string, limit: int): (r: string)
    ensures limit > 0 ==> |r| <= limit
    ensures limit <= 0 || |text| <= limit ==> r == text
  {
    if limit <= 0 || |text| <= limit then text
    else if limit <= 3 then text[..limit]
    else
      TrimTrims(text[..limit - 3]);
      Trim(text[..limit - 3]) + "..."
  }

  /** What a summary that is too long is cut to: the first runes when there is room for no more than
      three, and otherwise as many as leave room for three dots, less the white space around them. */
  lemma TruncateCuts(text: string, limit: int) returns (body: string, lead: string, pad: string)
    requires 0 < limit < |text|
    ensures limit <= 3 ==> Truncate(text, limit) == text[..limit]
    ensures limit > 3 ==>
              && Truncate(text, limit) == body + "..." && Trimmed(body)
              && lead + body + pad == text[..limit - 3] && AllSpace(lead) && AllSpace(pad)
  {
    hide Trim, AllSpace, Trimmed;
    body, lead, pad := "", "", "";
    if limit > 3 {
      body := Trim(text[..limit - 3]);
      lead, pad := TrimParts(text[..limit - 3]);
    }
  }

  /** A summary that is not empty stays so, and shows how the text starts. */
  lemma TruncateKeepsStart(text: string, limit: int)
    requires text != "" && Trimmed(text)
    ensures Truncate(text, limit) != "" && Truncate(text, limit)[0] == text[0]
  {
    if limit > 3 && |text| > limit {
      var t := text[..limit - 3];
      assert TrimLeft(t) == t && t[0] == text[0];
      InkStays(t);
    }
  }

  lemma {:induction false} InkStays(t: string)
    requires t != "" && !IsSpace(t[0])
    ensures TrimRight(t) != "" && TrimRight(t)[0] == t[0]
  {
    if IsSpace(t[|t| - 1]) {
      InkStays(t[..|t| - 1]);
    }
  }

  /* ---------- Keywords ---------- */

  function ReplaceAll(s: string, from: char, to: char): string {
    seq(|s|, i requires 0 <= i < |s| => if s[i] == from then to else s[i])
  }

  function SplitAtCommas(s: string): (pieces: seq<string>)
    ensures pieces != []
  {
    if s == "" then [""]
    else
      var rest := SplitAtCommas(s[1..]);
      if s[0] == ',' then [""] + rest else [[s[0]] + rest[0]] + rest[1..]
  }

  function Tokens(raw: string): (tokens: seq<string>)
    ensures tokens != []
  {
    SplitAtCommas(ReplaceAll(ReplaceAll(raw, '\n', ','), ';', ','))
  }

  predicate Bulleted(token: string) {
    token != "" && token[0] == '-'
  }

  function Clean(token: string): string {
    Trim(if Bulleted(token) then token[1..] else token)
  }

  /** The keyword a token leaves, if any. */
  function Word(token: string): seq<string> {
    if Clean(token) == "" then [] else [Clean(token)]
  }

  function Cleaned(tokens: seq<string>): seq<string> {
    if tokens == [] then [] else Word(tokens[0]) + Cleaned(tokens[1..])
  }

  function Limited(words: seq<string>, limit: int): seq<string> {
    if 0 < limit < |words| then words[..limit] else words
  }

  function Keywords(raw: string, limit: int): seq<string> {
    Limited(Cleaned(Tokens(raw)), limit)
  }

  /** A keyword ends at a comma, a semicolon or the end of a line. */
  lemma KeywordEndsAt(piece: string, sep: char, rest: string)
    requires forall i :: 0 <= i < |piece| ==> piece[i] != ',' && piece[i] != ';' && piece[i] != '\n'
    requires sep == ',' || sep == ';' || sep == '\n'
    ensures Cleaned(Tokens(piece + [sep] + rest)) == Cleaned(Tokens(piece)) + Cleaned(Tokens(rest))
  {
    hide Tokens, Word, Cleaned;
    TokensPeel(piece, sep, rest);
    EmptyList();
    CleanedFront(piece, Tokens(rest));
    CleanedFront(piece, []);
    assert [piece] + [] == [piece];
  }

  /** One hyphen in front of a keyword is taken for a bullet. */
  lemma HyphenIsBullet(k: string)
    requires k != "" && Trimmed(k)
    ensures Word("-" + k) == [k] && Word("- " + k) == [k]
    ensures k[0] != '-' ==> Word(k) == [k]
  {
    hide Trim;
    assert ("-" + k)[1..] == k && ("- " + k)[1..] == " " + k;
    TrimOfTrimmed(k);
    CleanPadded(k);
    assert !Bulleted(" " + k);
  }

  lemma {:induction false} CleanedAppend(a: seq<string>, b: seq<string>)
    ensures Cleaned(a + b) == Cleaned(a) + Cleaned(b)
  {
    hide Word;
    if a == [] {
      assert a + b == b;
    } else {
      assert (a + b)[1..] == a[1..] + b;
      CleanedAppend(a[1..], b);
    }
  }

  lemma EmptyList()
    ensures Cleaned([]) == [] && Word("") == []
  {
  }

  lemma CleanedFront(token: string, rest: seq<string>)
    ensures Cleaned([token] + rest) == Word(token) + Cleaned(rest)
  {
    hide Word;
    assert ([token] + rest)[1..] == rest;
  }

  lemma CleanedNext(tokens: seq<string>, i: nat)
    requires i < |tokens|
    ensures Cleaned(tokens[..i + 1]) == Cleaned(tokens[..i]) + Word(tokens[i])
  {
    hide Word;
    assert tokens[..i + 1] == tokens[..i] + [tokens[i]];
    CleanedAppend(tokens[..i], [tokens[i]]);
  }

  method SplitKeywords(raw: string, limit: int) returns (keywords: seq<string>)
    ensures keywords == Keywords(raw, limit)
  {
    hide Clean, Cleaned, SplitAtCommas, ReplaceAll;
    EmptyList();
    var unified := ReplaceAll(raw, '\n', ',');
    unified := ReplaceAll(unified, ';', ',');
    var tokens := SplitAtCommas(unified);
    keywords := [];
    for i := 0 to |tokens|
      invariant keywords == Cleaned(tokens[..i])
      invariant limit > 0 ==> |keywords| < limit
    {
      CleanedNext(tokens, i);
      var clean := Clean(tokens[i]);
      if clean == "" {
        continue;
      }
      keywords := keywords + [clean];
      if limit > 0 && |keywords| >= limit {
        assert tokens == tokens[..i + 1] + tokens[i + 1..];
        CleanedAppend(tokens[..i + 1], tokens[i + 1..]);
        return;
      }
    }
    assert tokens[..|tokens|] == tokens;
  }

  /* ---------- Round trip ---------- */

  /** The reply behind its first marker, with `tail` behind the second. */
  function Body(text: string, tail: string): string {
    "\n" + text + "\n\n" + KEYWORDS + tail
  }

  /** The reply the model is asked for. */
  function Format(text: string, keywords: seq<string>): string {
    SUMMARY + Body(text, "\n" + Join(keywords, ", "))
  }

  lemma FormatIs(text: string, keywords: seq<string>)
    ensures Format(text, keywords) == "SUMMARY:\n" + text + "\n\nKEYWORDS:\n" + Join(keywords, ", ")
  {
    hide Join;
  }

  predicate Separates(c: char) {
    c == ',' || c == ';' || c == '\n'
  }

  predicate GoodKeyword(k: string) {
    k != "" && Trimmed(k) && forall i :: 0 <= i < |k| ==> !Separates(k[i])
  }

  lemma {:induction false} CommasPeel(piece: string, rest: string)
    requires forall i :: 0 <= i < |piece| ==> piece[i] != ','
    ensures SplitAtCommas(piece + "," + rest) == [piece] + SplitAtCommas(rest)
    ensures SplitAtCommas(piece) == [piece]
  {
    var whole := piece + "," + rest;
    if piece == "" {
      assert whole[1..] == rest;
    } else {
      assert whole[1..] == piece[1..] + "," + rest;
      CommasPeel(piece[1..], rest);
      assert [piece[0]] + piece[1..] == piece;
    }
  }

  lemma TokensPeel(piece: string, sep: char, rest: string)
    requires forall i :: 0 <= i < |piece| ==> !Separates(piece[i])
    requires Separates(sep)
    ensures Tokens(piece + [sep] + rest) == [piece] + Tokens(rest)
    ensures Tokens(piece) == [piece]
  {
    var whole := piece + [sep] + rest;
    var rest' := ReplaceAll(ReplaceAll(rest, '\n', ','), ';', ',');
    assert ReplaceAll(ReplaceAll(whole, '\n', ','), ';', ',') == piece + "," + rest';
    assert ReplaceAll(ReplaceAll(piece, '\n', ','), ';', ',') == piece;
    CommasPeel(piece, rest');
  }

  /** After a space, a leading hyphen is part of the keyword. */
  lemma CleanPadded(k: string)
    requires k != "" && Trimmed(k)
    ensures Word(" " + k) == [k]
  {
    assert (" " + k)[1..] == k;
    assert TrimLeft(" " + k) == TrimLeft(k);
  }

  lemma JoinPeels(ks: seq<string>)
    requires |ks| > 1
    ensures Join(ks, ", ") == ks[0] + [','] + (" " + Join(ks[1..], ", "))
  {
    var rest := Join(ks[1..], ", ");
    assert ks[0] + ", " + rest == ks[0] + [','] + (" " + rest);
  }

  lemma {:induction false} KeywordsAfterSpace(ks: seq<string>)
    requires ks != [] && forall i :: 0 <= i < |ks| ==> GoodKeyword(ks[i])
    ensures Cleaned(Tokens(" " + Join(ks, ", "))) == ks
  {
    hide Tokens, Word, Cleaned, GoodKeyword;
    var piece := " " + ks[0];
    PaddedKeyword(ks[0]);
    EmptyList();
    if |ks| == 1 {
      CleanedFront(piece, []);
      assert [piece] + [] == [piece];
    } else {
      hide Join;
      JoinPeels(ks);
      var rest := " " + Join(ks[1..], ", ");
      assert " " + (ks[0] + [','] + rest) == piece + [','] + rest;
      PaddedPeels(ks[0], rest);
      CleanedFront(piece, Tokens(rest));
      KeywordsAfterSpace(ks[1..]);
    }
  }

  lemma PaddedKeyword(k: string)
    requires GoodKeyword(k)
    ensures Word(" " + k) == [k] && Tokens(" " + k) == [" " + k]
  {
    hide Tokens, Word;
    CleanPadded(k);
    TokensPeel(" " + k, ',', "");
  }

  lemma PaddedPeels(k: string, rest: string)
    requires GoodKeyword(k)
    ensures Tokens(" " + k + [','] + rest) == [" " + k] + Tokens(rest)
  {
    hide Tokens;
    TokensPeel(" " + k, ',', rest);
  }

  lemma LineEndInFront(list: string)
    ensures Cleaned(Tokens("\n" + list)) == Cleaned(Tokens(list))
  {
    hide Tokens, Word, Cleaned;
    assert "\n" + list == "" + ['\n'] + list;
    TokensPeel("", '\n', list);
    EmptyList();
    CleanedFront("", Tokens(list));
  }

  /** Only the first keyword stands right after a separator, where a hyphen is a bullet. */
  lemma KeywordsOfList(ks: seq<string>)
    requires ks != [] && forall i :: 0 <= i < |ks| ==> GoodKeyword(ks[i])
    ensures Cleaned(Tokens("\n" + Join(ks, ", "))) == Word(ks[0]) + ks[1..]
  {
    hide Tokens, Word, Cleaned, Join, GoodKeyword;
    LineEndInFront(Join(ks, ", "));
    KeywordsOfRest(ks);
  }

  lemma KeywordPeels(k: string, rest: string)
    requires GoodKeyword(k)
    ensures Tokens(k + [','] + rest) == [k] + Tokens(rest) && Tokens(k) == [k]
  {
    hide Tokens;
    TokensPeel(k, ',', rest);
  }

  lemma KeywordsOfRest(ks: seq<string>)
    requires ks != [] && forall i :: 0 <= i < |ks| ==> GoodKeyword(ks[i])
    ensures Cleaned(Tokens(Join(ks, ", "))) == Word(ks[0]) + ks[1..]
  {
    hide Tokens, Word, Cleaned, GoodKeyword, Join;
    FirstAndRest(ks);
    KeywordsOfParts(ks[0], ks[1..]);
  }

  lemma FirstAndRest<T>(s: seq<T>)
    requires s != []
    ensures s == [s[0]] + s[1..]
  {
  }

  lemma KeywordsOfParts(k: string, more: seq<string>)
    requires GoodKeyword(k) && forall i :: 0 <= i < |more| ==> GoodKeyword(more[i])
    ensures Cleaned(Tokens(Join([k] + more, ", "))) == Word(k) + more
  {
    hide Tokens, Word, Cleaned, GoodKeyword, Join;
    if more == [] {
      OneKeyword(k);
    } else {
      KeywordsOfPair(k, more);
    }
  }

  lemma KeywordsOfPair(k: string, more: seq<string>)
    requires GoodKeyword(k) && more != [] && forall i :: 0 <= i < |more| ==> GoodKeyword(more[i])
    ensures Cleaned(Tokens(Join([k] + more, ", "))) == Word(k) + more
  {
    hide Tokens, Word, Cleaned, GoodKeyword, Join;
    assert ([k] + more)[1..] == more;
    JoinPeels([k] + more);
    KeywordsAfterSpace(more);
    ManyKeywords(k, " " + Join(more, ", "));
  }

  lemma ManyKeywords(k: string, rest: string)
    requires GoodKeyword(k)
    ensures Cleaned(Tokens(k + [','] + rest)) == Word(k) + Cleaned(Tokens(rest))
  {
    hide Tokens, Word, Cleaned, GoodKeyword;
    KeywordPeels(k, rest);
    CleanedFront(k, Tokens(rest));
  }

  lemma OneKeyword(k: string)
    requires GoodKeyword(k)
    ensures Cleaned(Tokens(Join([k] + [], ", "))) == Word(k) + []
  {
    hide Tokens, Word, GoodKeyword;
    KeywordPeels(k, "");
    assert [k] + [] == [k];
    assert Word(k) + [] == Word(k);
  }

  /** The keywords that survive: the first one stands right after a line end, where a hyphen is
      taken for a bullet. A lone hyphen is dropped there, which shows unless the limit leaves only
      hyphens to be seen. */
  predicate KeywordsSurvive(ks: seq<string>, limit: int) {
    || ks == [] || !Bulleted(ks[0])
    || (0 < limit < |ks| && forall i :: 0 <= i <= limit ==> ks[i] == "-")
  }

  lemma {:induction false} AllAlike(ks: seq<string>, n: nat)
    requires n < |ks| && forall i :: 0 <= i < n ==> ks[i + 1] == ks[i]
    ensures forall i :: 0 <= i <= n ==> ks[i] == ks[0]
  {
    if n > 0 {
      AllAlike(ks, n - 1);
      assert ks[n - 1 + 1] == ks[n - 1];
    }
  }

  /** Dropping the first keyword goes unnoticed when the ones that are seen are all alike. */
  lemma DropUnnoticedIff(ks: seq<string>, limit: int)
    requires ks != []
    ensures Limited(ks[1..], limit) == Limited(ks, limit) <==>
              0 < limit < |ks| && forall i :: 0 <= i <= limit ==> ks[i] == ks[0]
  {
    if Limited(ks[1..], limit) == Limited(ks, limit) {
      forall i | 0 <= i < limit
        ensures ks[i + 1] == ks[i]
      {
        assert Limited(ks[1..], limit)[i] == Limited(ks, limit)[i];
      }
      AllAlike(ks, limit);
    }
  }

  /** A list of keywords is read back, up to the limit, exactly when they survive. */
  lemma KeywordsRoundTrip(ks: seq<string>, limit: int)
    requires forall i :: 0 <= i < |ks| ==> GoodKeyword(ks[i])
    ensures Keywords("\n" + Join(ks, ", "), limit) == Limited(ks, limit) <==> KeywordsSurvive(ks, limit)
  {
    hide Tokens, Join, Cleaned, Word, GoodKeyword, Limited;
    if ks == [] {
      NoKeywords();
    } else {
      KeywordsOfList(ks);
      FirstKeyword(ks[0]);
      DropUnnoticedIff(ks, limit);
      FirstDiffers(Word(ks[0]), ks, limit);
    }
  }

  /** The list begins with what its first keyword is read as. */
  lemma FirstDiffers(first: seq<string>, ks: seq<string>, limit: int)
    requires ks != []
    ensures first == [] ==> first + ks[1..] == ks[1..]
    ensures first == [ks[0]] ==> first + ks[1..] == ks
    ensures |first| == 1 && first[0] != ks[0] ==> Limited(first + ks[1..], limit) != Limited(ks, limit)
  {
    if |first| == 1 && first[0] != ks[0] {
      assert Limited(first + ks[1..], limit)[0] != Limited(ks, limit)[0];
    }
  }

  lemma NoKeywords()
    ensures Cleaned(Tokens("")) == [] && Cleaned(Tokens("\n" + Join([], ", "))) == []
  {
    hide Tokens, Word;
    TokensPeel("", ',', "");
    EmptyList();
    CleanedFront("", []);
    assert [""] + [] == [""];
    LineEndInFront("");
  }

  lemma FirstKeyword(k: string)
    requires GoodKeyword(k)
    ensures !Bulleted(k) ==> Word(k) == [k]
    ensures Bulleted(k) && k != "-" ==> |Word(k)| == 1 && Word(k)[0] != k
    ensures k == "-" ==> Word(k) == []
  {
    hide Trim, IsSpace, Separates;
    TrimOfTrimmed(k);
    TrimOfTrimmed("");
    if Bulleted(k) {
      assert k == "-" <==> |k| == 1;
      if |k| > 1 {
        BulletShortens(k);
      } else {
        assert k[1..] == "";
      }
    }
  }

  lemma BulletShortens(k: string)
    requires GoodKeyword(k) && |k| > 1
    ensures 0 < |Trim(k[1..])| < |k|
  {
    hide Trim, IsSpace, Separates;
    TrimTrims(k[1..]);
    LastInkStays(k[1..]);
  }

  lemma {:induction false} LastInkStays(t: string)
    requires t != "" && !IsSpace(t[|t| - 1])
    ensures Trim(t) != ""
  {
    if IsSpace(t[0]) && |t| > 1 {
      LastInkStays(t[1..]);
    }
  }

  /* The sections of the formatted reply. */

  /** A marker holds no line end, so it cannot reach across one. */
  lemma NotAcross(s: string, i: nat, j: nat)
    requires i <= j < i + |KEYWORDS| && j < |s| && s[j] == '\n'
    ensures !MarkerAt(s, KEYWORDS, i)
  {
    if i + |KEYWORDS| <= |s| {
      assert LowerOf(s[i + (j - i)]) != LowerOf(KEYWORDS[j - i]);
    }
  }

  /** Where the first keyword marker of the body stands. */
  lemma MarkerOfBody(text: string, tail: string)
    ensures var k := FindMarker(Body(text, tail), KEYWORDS);
            if Contains(text, KEYWORDS) then k == 1 + FindMarker(text, KEYWORDS) else k == |text| + 3
  {
    hide LowerOf;
    var body := Body(text, tail);
    forall i: nat | i < |text| + 3
      ensures MarkerAt(body, KEYWORDS, i) <==> i >= 1 && MarkerAt(text, KEYWORDS, i - 1)
    {
      MarkerInText(text, tail, i);
    }
    if Contains(text, KEYWORDS) {
      FirstMarker(body, KEYWORDS, 1 + FindMarker(text, KEYWORDS));
    } else {
      assert forall k :: 0 <= k < |KEYWORDS| ==> body[|text| + 3 + k] == KEYWORDS[k];
      FirstMarker(body, KEYWORDS, |text| + 3);
    }
  }

  lemma MarkerInText(text: string, tail: string, i: nat)
    requires i < |text| + 3
    ensures MarkerAt(Body(text, tail), KEYWORDS, i) <==> i >= 1 && MarkerAt(text, KEYWORDS, i - 1)
  {
    var body := Body(text, tail);
    assert body[0] == '\n' && body[|text| + 1] == '\n' && body[|text| + 2] == '\n';
    if i == 0 {
      NotAcross(body, 0, 0);
    } else if |text| + 1 < i + |KEYWORDS| {
      NotAcross(body, i, if i <= |text| + 1 then |text| + 1 else |text| + 2);
    } else {
      assert body[i..i + |KEYWORDS|] == text[i - 1..i - 1 + |KEYWORDS|];
    }
  }

  /** A keyword list ends in no white space. */
  lemma {:induction false} JoinEnds(ks: seq<string>)
    requires ks != [] && forall i :: 0 <= i < |ks| ==> GoodKeyword(ks[i])
    ensures Join(ks, ", ") != "" && !IsSpace(Join(ks, ", ")[|Join(ks, ", ")| - 1])
  {
    hide IsSpace, Separates;
    if |ks| > 1 {
      JoinEnds(ks[1..]);
    } else {
      assert GoodKeyword(ks[0]);
    }
  }

  /** Trimming the formatted reply takes away at most the line end before an empty list. */
  lemma TrimOfFormat(text: string, keywords: seq<string>)
    requires forall i :: 0 <= i < |keywords| ==> GoodKeyword(keywords[i])
    ensures var f := Format(text, keywords);
            Trim(f) == if keywords == [] then f[..|f| - 1] else f
  {
    hide GoodKeyword;
    var f := Format(text, keywords);
    assert f[0] == 'S';
    if keywords == [] {
      var g := f[..|f| - 1];
      assert f == g + ['\n'];
      TrimOfPadded(g, '\n');
      assert g[|g| - 1] == ':' && g[0] == 'S';
      TrimOfTrimmed(g);
    } else {
      JoinEnds(keywords);
      var l := Join(keywords, ", ");
      assert f[|f| - 1] == l[|l| - 1];
      TrimOfTrimmed(f);
    }
  }

  lemma TrimAfterLineEnd(s: string)
    ensures Trim("\n" + s) == Trim(s) && |Trim(s)| <= |s|
  {
    hide TrimRight;
    assert ("\n" + s)[1..] == s;
    assert TrimLeft("\n" + s) == TrimLeft(s);
  }

  lemma TrimOfTwice(s: string)
    ensures Trim(s + "\n\n") == Trim(s)
  {
    hide Trim;
    assert s + "\n\n" == s + ['\n'] + ['\n'];
    TrimOfPadded(s + ['\n'], '\n');
    TrimOfPadded(s, '\n');
  }

  lemma TrimOfSection(text: string)
    requires text != "" && Trimmed(text)
    ensures Trim("\n" + text + "\n\n") == text
  {
    hide Trim, Trimmed;
    TrimOfTwice("\n" + text);
    TrimAfterLineEnd(text);
    TrimOfTrimmed(text);
  }

  lemma BodyParts(text: string, tail: string, i: nat)
    requires i <= |text|
    ensures |Body(text, tail)| == |text| + 3 + |KEYWORDS| + |tail|
    ensures Body(text, tail)[..1 + i] == "\n" + text[..i]
    ensures Body(text, tail)[..|text| + 3] == "\n" + text + "\n\n"
    ensures Body(text, tail)[|text| + 3 + |KEYWORDS|..] == tail
  {
    var body := Body(text, tail);
    assert body == "\n" + text[..i] + (text[i..] + "\n\n" + KEYWORDS + tail);
  }

  lemma SectionsOfBody(text: string, tail: string)
    requires text != "" && Trimmed(text)
    ensures !Contains(text, KEYWORDS) ==>
              Trim(SummarySection(Body(text, tail))) == text && KeywordSection(Body(text, tail)) == tail
    ensures Contains(text, KEYWORDS) ==> |Trim(SummarySection(Body(text, tail)))| < |text|
  {
    hide Trim, Trimmed, Contains, MarkerAt, Body;
    MarkerOfBody(text, tail);
    if Contains(text, KEYWORDS) {
      var i := FindMarker(text, KEYWORDS);
      BodyParts(text, tail, i);
      TrimAfterLineEnd(text[..i]);
    } else {
      BodyParts(text, tail, 0);
      TrimOfSection(text);
    }
  }

  lemma StartsWithMarker(rest: string)
    ensures FindMarker(SUMMARY + rest, SUMMARY) == 0 && (SUMMARY + rest)[|SUMMARY|..] == rest
  {
    assert MarkerAt(SUMMARY + rest, SUMMARY, 0);
    FirstMarker(SUMMARY + rest, SUMMARY, 0);
  }

  function TailOf(ks: seq<string>): string {
    if ks == [] then "" else "\n" + Join(ks, ", ")
  }

  lemma FormatTrimmed(text: string, keywords: seq<string>)
    requires forall i :: 0 <= i < |keywords| ==> GoodKeyword(keywords[i])
    ensures Trim(Format(text, keywords)) == SUMMARY + Body(text, TailOf(keywords))
  {
    hide GoodKeyword, Trim;
    TrimOfFormat(text, keywords);
    if keywords == [] {
      JoinOfNone();
      assert Format(text, []) == SUMMARY + Body(text, "") + "\n";
    }
  }

  /** The reply as `Parse` and `ExtractSummary` see it: trimmed, with its marker in front. */
  lemma FormatStarts(text: string, keywords: seq<string>)
    requires forall i :: 0 <= i < |keywords| ==> GoodKeyword(keywords[i])
    ensures var c := Trim(Format(text, keywords));
            c != "" && FindMarker(c, SUMMARY) == 0 && c[|SUMMARY|..] == Body(text, TailOf(keywords))
  {
    hide GoodKeyword, Trim, Format, Body, TailOf;
    FormatTrimmed(text, keywords);
    StartsWithMarker(Body(text, TailOf(keywords)));
  }

  lemma JoinOfNone()
    ensures Join([], ", ") == ""
  {
  }

  lemma KeywordsOfTail(ks: seq<string>, limit: int)
    ensures Keywords(TailOf(ks), limit) == Keywords("\n" + Join(ks, ", "), limit)
  {
    hide Tokens, Word, Cleaned, Join;
    NoKeywords();
  }

  /** Formatting and parsing give back the summary exactly when the summary holds no keyword
      marker, and the whole reply exactly when also its keywords survive. */
  lemma RoundTrip(text: string, ks: seq<string>, limit: int)
    requires text != "" && Trimmed(text)
    requires forall i :: 0 <= i < |ks| ==> GoodKeyword(ks[i])
    ensures var r := Parse(Format(text, ks), limit);
            && (r.Ok? && r.value.text == text <==> !Contains(text, KEYWORDS))
            && (r == Ok(Summary(text, Limited(ks, limit))) <==> !Contains(text, KEYWORDS) && KeywordsSurvive(ks, limit))
  {
    hide Trim, Format, Body, Keywords, GoodKeyword, SummarySection, KeywordSection, Join, TailOf;
    FormatStarts(text, ks);
    SectionsOfBody(text, TailOf(ks));
    KeywordsOfTail(ks, limit);
    KeywordsRoundTrip(ks, limit);
  }

  /* ---------- The stream ---------- */

  /** `Completed` chunks carry the keywords, the others are partial summaries. */
  datatype StreamChunk = StreamChunk(summary: string, completed: bool, keywords: seq<string>)

  datatype Config = Config(maxSummaryLen: int, maxKeywords: int)

  /** What a call without streaming answers for the same reply. */
  function Summarized(content: string, cfg: Config): Result<Summary> {
    match Parse(content, cfg.maxKeywords)
    case Ok(s) => Ok(s.(text := Truncate(s.text, cfg.maxSummaryLen)))
    case Err(e) => Err(e)
  }

  /** All the text of the received deltas: one delta has any number of choices. */
  function Collected(deltas: seq<seq<string>>): string {
    Flatten(Flatten(deltas))
  }

  /** What a client could be shown after the first `n` deltas. */
  function Shown(deltas: seq<seq<string>>, cfg: Config, n: nat): string
    requires n <= |deltas|
  {
    Truncate(ExtractSummary(Collected(deltas[..n])), cfg.maxSummaryLen)
  }

  method AppendChoices(builder: string, choices: seq<string>) returns (r: string)
    ensures r == builder + Flatten(choices)
  {
    r := builder;
    for i := 0 to |choices|
      invariant r == builder + Flatten(choices[..i])
    {
      assert choices[..i + 1] == choices[..i] + [choices[i]];
      FlattenAppend(choices[..i], [choices[i]]);
      assert Flatten([choices[i]]) == choices[i];
      Assoc(builder, Flatten(choices[..i]), choices[i]);
      r := r + choices[i];
    }
    assert choices[..|choices|] == choices;
  }

  lemma CollectedDelta(deltas: seq<seq<string>>, n: nat)
    requires n < |deltas|
    ensures Collected(deltas[..n + 1]) == Collected(deltas[..n]) + Flatten(deltas[n])
  {
    assert deltas[..n + 1] == deltas[..n] + [deltas[n]];
    FlattenAppend(deltas[..n], [deltas[n]]);
    assert Flatten([deltas[n]]) == deltas[n];
    FlattenAppend(Flatten(deltas[..n]), deltas[n]);
  }

  /** The summary that stands when the reply is complete is the parsed one. */
  lemma ExtractIsParsed(content: string, limit: int)
    requires Parse(content, limit).Ok?
    ensures ExtractSummary(content) == Parse(content, limit).value.text
    ensures Trimmed(ExtractSummary(content)) && ExtractSummary(content) != ""
  {
    hide Keywords;
    var c := Trim(content);
    TrimTrims(SummarySection(c[FindMarker(c, SUMMARY) + |SUMMARY|..]));
  }

  /** When a reply is not parsed, and which error that is: the reply is blank, it has no summary
      marker, or nothing stands behind that marker. While there is no marker all of the reply is
      shown. */
  lemma ParseFails(content: string, limit: int)
    ensures Parse(content, limit) == Err(EmptyReply) <==> Trim(content) == ""
    ensures Parse(content, limit) == Err(NoSummarySection) <==> Trim(content) != "" && !Contains(Trim(content), "SUMMARY:")
    ensures Parse(content, limit) == Err(EmptySummary) <==>
              Contains(Trim(content), "SUMMARY:") && ExtractSummary(content) == ""
    ensures !Contains(Trim(content), "SUMMARY:") ==> ExtractSummary(content) == Trim(content)
  {
    hide Keywords, Trim, SummarySection, KeywordSection;
    var c := Trim(content);
    if c == "" {
      assert forall i: nat :: !MarkerAt("", SUMMARY, i);
    }
  }

  /** Whatever stands in front of the first summary marker is ignored. */
  lemma FrontIsIgnored(content: string, limit: int)
    requires Contains(Trim(content), "SUMMARY:")
    ensures var c := Trim(content);
            var i := FindMarker(c, "SUMMARY:");
            i >= 0 && Parse(c[i..], limit) == Parse(content, limit) && ExtractSummary(c[i..]) == ExtractSummary(content)
  {
    hide Keywords, Trim, SummarySection, KeywordSection, Trimmed, Contains;
    var c := Trim(content);
    var i := FindMarker(c, SUMMARY);
    TrimTrims(content);
    MarkerIsInk(c, i);
    TrimOfTrimmed(c[i..]);
    assert MarkerAt(c[i..], SUMMARY, 0) by { MarkerInRest(c, i); }
    FirstMarker(c[i..], SUMMARY, 0);
    assert c[i..][|SUMMARY|..] == c[i + |SUMMARY|..];
  }

  lemma MarkerInRest(c: string, i: nat)
    requires MarkerAt(c, SUMMARY, i)
    ensures MarkerAt(c[i..], SUMMARY, 0)
  {
    hide LowerOf;
    forall k | 0 <= k < |SUMMARY|
      ensures LowerOf(c[i..][0 + k]) == LowerOf(SUMMARY[k])
    {
      assert c[i..][0 + k] == c[i + k];
    }
  }

  lemma MarkerIsInk(c: string, i: nat)
    requires Trimmed(c) && MarkerAt(c, SUMMARY, i)
    ensures c[i..] != "" && Trimmed(c[i..])
  {
    assert LowerOf(c[i + 0]) == LowerOf(SUMMARY[0]);
    assert SUMMARY[0] == 'S' && !IsSpace(LowerOf('S'));
  }

  /** `text` is what the first deltas have, for some number of them up to `n`. */
  ghost predicate ShownBy(text: string, deltas: seq<seq<string>>, cfg: Config, n: nat) {
    n <= |deltas| && exists m: nat :: 0 < m <= n && text == Shown(deltas, cfg, m)
  }

  ghost predicate Among(text: string, out: seq<StreamChunk>) {
    exists k :: 0 <= k < |out| && out[k].summary == text
  }

  /** Partial summaries show something, each something new; `last` is what was shown last. */
  ghost predicate GoodPartials(out: seq<StreamChunk>, last: string) {
    && (forall k :: 0 <= k < |out| ==> !out[k].completed && out[k].summary != "" && out[k].keywords == [])
    && (forall k :: 0 < k < |out| ==> out[k].summary != out[k - 1].summary)
    && last == (if out == [] then "" else out[|out| - 1].summary)
  }

  /** The partials are just the nonempty texts the first deltas have. */
  ghost predicate ShowsAll(out: seq<StreamChunk>, deltas: seq<seq<string>>, cfg: Config, n: nat) {
    && (forall k :: 0 <= k < |out| ==> ShownBy(out[k].summary, deltas, cfg, n))
    && (forall text :: ShownBy(text, deltas, cfg, n) && text != "" ==> Among(text, out))
  }

  /** The loop over the deltas. */
  method SendPartials(deltas: seq<seq<string>>, cfg: Config)
    returns (out: seq<StreamChunk>, content: string, lastSummary: string)
    ensures content == Collected(deltas)
    ensures lastSummary == LastShown(deltas, cfg, |deltas|)
    ensures GoodPartials(out, lastSummary) && ShowsAll(out, deltas, cfg, |deltas|)
  {
    hide ExtractSummary, Truncate, Collected, Flatten, GoodPartials, ShowsAll;
    out, content, lastSummary := [], "", "";
    CollectedNone();
    NoPartials(deltas, cfg);
    for n := 0 to |deltas|
      invariant content == Collected(deltas[..n])
      invariant lastSummary == LastShown(deltas, cfg, n)
      invariant GoodPartials(out, lastSummary) && ShowsAll(out, deltas, cfg, n)
    {
      content := AppendChoices(content, deltas[n]);
      CollectedDelta(deltas, n);
      PartialsStep(out, deltas, cfg, n, lastSummary);
      var partial := Truncate(ExtractSummary(content), cfg.maxSummaryLen);
      if partial == "" || partial == lastSummary {
        continue;
      }
      lastSummary := partial;
      out := out + [StreamChunk(partial, false, [])];
    }
    assert deltas[..|deltas|] == deltas;
  }

  /** `deltas` are those received before the end of the stream or an error of it, which are
      treated alike. Whatever the split of the reply into deltas, exactly one chunk is marked
      completed if the reply parses, the last one, with the answer of a call without streaming,
      and the last partial already shows its summary; no chunk is if the reply does not parse. */
  method StreamSummary(deltas: seq<seq<string>>, cfg: Config) returns (out: seq<StreamChunk>)
    ensures var answer := Summarized(Collected(deltas), cfg);
            var partials := if answer.Ok? && out != [] then out[..|out| - 1] else out;
            && (answer.Ok? ==> |out| >= 2 && out[|out| - 1] == StreamChunk(answer.value.text, true, answer.value.keywords))
            && ShowsAll(partials, deltas, cfg, |deltas|)
            && GoodPartials(partials, if answer.Ok? then answer.value.text else LastShown(deltas, cfg, |deltas|))
  {
    hide ExtractSummary, Truncate, Parse, Collected, Flatten, GoodPartials, ShowsAll, LastShown;
    var partials, content, lastSummary := SendPartials(deltas, cfg);
    out := partials;
    if content == "" {
      NothingParses(cfg.maxKeywords);
      return;
    }
    match Parse(content, cfg.maxKeywords)
    case Err(_) =>
    case Ok(s) =>
      LastIsSummary(deltas, cfg);
      SomePartial(partials, lastSummary);
      out := out + [StreamChunk(Truncate(s.text, cfg.maxSummaryLen), true, s.keywords)];
      assert out[..|out| - 1] == partials;
  }

  /** The nonempty text shown last. */
  function LastShown(deltas: seq<seq<string>>, cfg: Config, n: nat): string
    requires n <= |deltas|
  {
    if n == 0 then "" else if Shown(deltas, cfg, n) != "" then Shown(deltas, cfg, n) else LastShown(deltas, cfg, n - 1)
  }

  lemma CollectedNone()
    ensures Collected([]) == ""
  {
  }

  lemma NothingParses(limit: int)
    ensures Parse("", limit) == Err(EmptyReply)
  {
  }

  lemma NoPartials(deltas: seq<seq<string>>, cfg: Config)
    ensures GoodPartials([], "") && ShowsAll([], deltas, cfg, 0) && Flatten<char>([]) == ""
  {
  }

  lemma ShownNext(text: string, deltas: seq<seq<string>>, cfg: Config, n: nat)
    requires n < |deltas|
    ensures ShownBy(text, deltas, cfg, n + 1) <==> ShownBy(text, deltas, cfg, n) || text == Shown(deltas, cfg, n + 1)
  {
    hide Shown;
    if ShownBy(text, deltas, cfg, n) {
      var m: nat :| 0 < m <= n && text == Shown(deltas, cfg, m);
      assert m <= n + 1;
    }
  }

  lemma AmongMore(text: string, out: seq<StreamChunk>, chunk: StreamChunk)
    ensures Among(text, out + [chunk]) <==> Among(text, out) || text == chunk.summary
  {
    var next := out + [chunk];
    if Among(text, out) {
      var k :| 0 <= k < |out| && out[k].summary == text;
      assert next[k].summary == text;
    }
    assert next[|out|] == chunk;
  }

  lemma PartialsStep(out: seq<StreamChunk>, deltas: seq<seq<string>>, cfg: Config, n: nat, last: string)
    requires n < |deltas| && GoodPartials(out, last) && ShowsAll(out, deltas, cfg, n)
    ensures var p := Shown(deltas, cfg, n + 1);
            if p == "" || p == last then ShowsAll(out, deltas, cfg, n + 1)
            else GoodPartials(out + [StreamChunk(p, false, [])], p) && ShowsAll(out + [StreamChunk(p, false, [])], deltas, cfg, n + 1)
  {
    hide Shown, ShownBy, Among;
    var p := Shown(deltas, cfg, n + 1);
    forall text: string
      ensures ShownBy(text, deltas, cfg, n + 1) <==> ShownBy(text, deltas, cfg, n) || text == p
    {
      ShownNext(text, deltas, cfg, n);
    }
    if p == "" || p == last {
      if p != "" {
        LastAmong(out);
      }
    } else {
      forall text: string
        ensures Among(text, out + [StreamChunk(p, false, [])]) <==> Among(text, out) || text == p
      {
        AmongMore(text, out, StreamChunk(p, false, []));
      }
      var next := out + [StreamChunk(p, false, [])];
      forall k | 0 <= k < |next|
        ensures ShownBy(next[k].summary, deltas, cfg, n + 1)
      {
        ShownNext(next[k].summary, deltas, cfg, n);
        if k < |out| {
          assert next[k] == out[k] && ShownBy(out[k].summary, deltas, cfg, n);
        } else {
          assert next[k].summary == p;
        }
      }
    }
  }

  lemma SomePartial(out: seq<StreamChunk>, last: string)
    requires GoodPartials(out, last) && last != ""
    ensures out != []
  {
  }

  lemma LastAmong(out: seq<StreamChunk>)
    requires out != []
    ensures Among(out[|out| - 1].summary, out)
  {
  }

  lemma LastIsSummary(deltas: seq<seq<string>>, cfg: Config)
    requires Summarized(Collected(deltas), cfg).Ok?
    ensures LastShown(deltas, cfg, |deltas|) == Summarized(Collected(deltas), cfg).value.text != ""
  {
    hide ExtractSummary, Truncate, Parse, Collected;
    assert deltas[..|deltas|] == deltas;
    if deltas == [] {
      CollectedNone();
      NothingParses(cfg.maxKeywords);
      assert false;
    }
    ExtractIsParsed(Collected(deltas), cfg.maxKeywords);
    TruncateKeepsStart(ExtractSummary(Collected(deltas)), cfg.maxSummaryLen);
  }
}
