/** Strings as sequences of runes: white space, trimming and splitting into fields. */
module Text {

  /** The runes Unicode calls white space. */
  predicate IsSpace(c: char) {
    || c == ' ' || '\t' <= c <= '\r'
    || c == '\U{85}' || c == '\U{A0}' || c == '\U{1680}'
    || '\U{2000}' <= c <= '\U{200A}'
    || c == '\U{2028}' || c == '\U{2029}' || c == '\U{202F}' || c == '\U{205F}' || c == '\U{3000}'
  }

  /** What a text is split at: any white space, or line ends only. */
  datatype Separator = Space | LineEnd {
    predicate Splits(c: char) {
      match this
      case Space => IsSpace(c)
      case LineEnd => c == '\n' || c == '\r'
    }
  }

  /** Length of the longest separator-free prefix. */
  function Run(sep: Separator, s: string): (n: nat)
    ensures n <= |s|
    ensures forall i :: 0 <= i < n ==> !sep.Splits(s[i])
    ensures n < |s| ==> sep.Splits(s[n])
  {
    if s == "" || sep.Splits(s[0]) then 0 else 1 + Run(sep, s[1..])
  }

  /** The maximal separator-free stretches of `s`, in order. */
  function Split(sep: Separator, s: string): seq<string> {
    if s == "" then []
    else if sep.Splits(s[0]) then Split(sep, s[1..])
    else var n := Run(sep, s); [s[..n]] + Split(sep, s[n..])
  }

  function Fields(s: string): seq<string> {
    Split(Space, s)
  }

  predicate IsField(sep: Separator, w: string) {
    w != "" && forall i :: 0 <= i < |w| ==> !sep.Splits(w[i])
  }

  lemma {:induction false} SplitGivesFields(sep: Separator, s: string)
    ensures forall k :: 0 <= k < |Split(sep, s)| ==> IsField(sep, Split(sep, s)[k])
  {
    if s != "" {
      if sep.Splits(s[0]) {
        SplitGivesFields(sep, s[1..]);
      } else {
        SplitGivesFields(sep, s[Run(sep, s)..]);
      }
    }
  }

  /** The first field ends where the first separator stands. */
  lemma {:induction false} RunIs(sep: Separator, w: string, rest: string)
    requires forall i :: 0 <= i < |w| ==> !sep.Splits(w[i])
    requires rest == "" || sep.Splits(rest[0])
    ensures Run(sep, w + rest) == |w|
  {
    if w == "" {
      assert w + rest == rest;
    } else {
      assert (w + rest)[1..] == w[1..] + rest;
      RunIs(sep, w[1..], rest);
    }
  }

  lemma SplitPeels(sep: Separator, w: string, rest: string)
    requires IsField(sep, w)
    requires rest == "" || sep.Splits(rest[0])
    ensures Split(sep, w + rest) == [w] + Split(sep, rest)
  {
    RunIs(sep, w, rest);
    assert (w + rest)[..|w|] == w;
    assert (w + rest)[|w|..] == rest;
  }

  /** Nothing can straddle a seam that has a separator on one side. */
  predicate Seam(sep: Separator, a: string, b: string) {
    a == "" || b == "" || sep.Splits(a[|a| - 1]) || sep.Splits(b[0])
  }

  /** Putting one more field in front of two texts that already concatenate well. */
  lemma SplitOfConcatStep(sep: Separator, w: string, rest: string, b: string)
    requires IsField(sep, w) && (rest == "" || sep.Splits(rest[0]))
    requires rest == "" ==> b == "" || sep.Splits(b[0])
    requires Split(sep, rest + b) == Split(sep, rest) + Split(sep, b)
    ensures Split(sep, w + rest + b) == Split(sep, w + rest) + Split(sep, b)
  {
    Assoc(w, rest, b);
    Assoc([w], Split(sep, rest), Split(sep, b));
    SplitPeels(sep, w, rest);
    SplitPeels(sep, w, rest + b);
  }

  lemma Assoc<T>(a: seq<T>, b: seq<T>, c: seq<T>)
    ensures a + b + c == a + (b + c)
  {
  }

  lemma {:induction false} SplitOfConcat(sep: Separator, a: string, b: string)
    requires Seam(sep, a, b)
    ensures Split(sep, a + b) == Split(sep, a) + Split(sep, b)
    decreases |a|
  {
    hide IsSpace;
    if a == "" {
      assert a + b == b;
    } else if sep.Splits(a[0]) {
      assert (a + b)[1..] == a[1..] + b;
      SplitOfConcat(sep, a[1..], b);
    } else {
      var n := Run(sep, a);
      SplitOfConcat(sep, a[n..], b);
      assert a == a[..n] + a[n..];
      SplitOfConcatStep(sep, a[..n], a[n..], b);
    }
  }

  lemma SplitOfField(sep: Separator, w: string)
    requires IsField(sep, w)
    ensures Split(sep, w) == [w]
  {
    SplitPeels(sep, w, "");
    assert w + "" == w;
  }

  /* ---------- Trimming ---------- */

  function TrimLeft(s: string): (r: string)
    ensures |r| <= |s| && (r != "" ==> !IsSpace(r[0]))
    ensures r == s[|s| - |r|..]
  {
    if s != "" && IsSpace(s[0]) then TrimLeft(s[1..]) else s
  }

  function TrimRight(s: string): (r: string)
    ensures r <= s && (r != "" ==> !IsSpace(r[|r| - 1]))
  {
    if s != "" && IsSpace(s[|s| - 1]) then TrimRight(s[..|s| - 1]) else s
  }

  function Trim(s: string): (r: string) {
    TrimRight(TrimLeft(s))
  }

  predicate Trimmed(s: string) {
    s != "" ==> !IsSpace(s[0]) && !IsSpace(s[|s| - 1])
  }

  lemma TrimTrims(s: string)
    ensures Trimmed(Trim(s)) && |Trim(s)| <= |s|
  {
  }

  lemma {:induction false} FieldsOfTrimLeft(s: string)
    ensures Fields(TrimLeft(s)) == Fields(s)
  {
    if s != "" && IsSpace(s[0]) {
      FieldsOfTrimLeft(s[1..]);
    }
  }

  lemma {:induction false} FieldsOfTrimRight(s: string)
    ensures Fields(TrimRight(s)) == Fields(s)
  {
    if s != "" && IsSpace(s[|s| - 1]) {
      var r, c := s[..|s| - 1], s[|s| - 1..];
      assert s == r + c;
      SplitOfConcat(Space, r, c);
      assert c[1..] == "";
      FieldsOfTrimRight(r);
    }
  }

  lemma FieldsOfTrim(s: string)
    ensures Fields(Trim(s)) == Fields(s)
  {
    FieldsOfTrimLeft(s);
    FieldsOfTrimRight(TrimLeft(s));
  }

  lemma TrimOfTrimmed(s: string)
    requires Trimmed(s)
    ensures Trim(s) == s
  {
  }

  lemma {:induction false} TrimLeftPad(s: string, c: char)
    requires IsSpace(c)
    ensures TrimLeft(s + [c]) == if TrimLeft(s) == "" then "" else TrimLeft(s) + [c]
  {
    if s == "" {
      assert (s + [c])[1..] == "";
    } else if IsSpace(s[0]) {
      assert (s + [c])[1..] == s[1..] + [c];
      TrimLeftPad(s[1..], c);
    }
  }

  /** White space written after a text is trimmed away again. */
  lemma TrimOfPadded(s: string, c: char)
    requires IsSpace(c)
    ensures Trim(s + [c]) == Trim(s)
  {
    TrimLeftPad(s, c);
    var l := TrimLeft(s);
    assert (l + [c])[..|l|] == l;
  }

  predicate AllSpace(s: string) {
    forall i :: 0 <= i < |s| ==> IsSpace(s[i])
  }

  lemma {:induction false} TrimLeftDrops(s: string)
    ensures AllSpace(s[..|s| - |TrimLeft(s)|])
  {
    if s != "" && IsSpace(s[0]) {
      TrimLeftDrops(s[1..]);
      assert s == [s[0]] + s[1..];
    }
  }

  lemma {:induction false} TrimRightDrops(s: string)
    ensures AllSpace(s[|TrimRight(s)|..])
  {
    if s != "" && IsSpace(s[|s| - 1]) {
      TrimRightDrops(s[..|s| - 1]);
      assert s == s[..|s| - 1] + [s[|s| - 1]];
    }
  }

  /** Nothing but white space is trimmed away, on either side. */
  lemma TrimParts(s: string) returns (lead: string, pad: string)
    ensures AllSpace(lead) && AllSpace(pad) && s == lead + Trim(s) + pad && Trimmed(Trim(s))
  {
    var left := TrimLeft(s);
    TrimLeftDrops(s);
    TrimRightDrops(left);
    TrimTrims(s);
    lead, pad := s[..|s| - |left|], left[|Trim(s)|..];
    assert left == Trim(s) + pad;
    assert s == lead + left;
    Assoc(lead, Trim(s), pad);
  }

  /** Only the front of a text that ends in ink is trimmed away. */
  lemma TrimOfInkEnd(s: string) returns (lead: string)
    requires s != "" && !IsSpace(s[|s| - 1])
    ensures AllSpace(lead) && s == lead + Trim(s) && Trim(s) == TrimLeft(s)
  {
    lead := s[..|s| - |TrimLeft(s)|];
    TrimLeftDrops(s);
    assert s == lead + TrimLeft(s);
  }

  lemma FieldsOfInk(s: string)
    requires s != "" && !IsSpace(s[0])
    ensures Fields(s) != []
  {
  }

  /* ---------- Joining ---------- */

  function Join(words: seq<string>, sep: string): string {
    if words == [] then ""
    else if |words| == 1 then words[0]
    else words[0] + sep + Join(words[1..], sep)
  }

  lemma {:induction false} FieldsOfJoin(words: seq<string>)
    requires forall k :: 0 <= k < |words| ==> IsField(Space, words[k])
    ensures Fields(Join(words, " ")) == words
  {
    if |words| == 1 {
      SplitOfField(Space, words[0]);
    } else if words != [] {
      var rest := Join(words[1..], " ");
      FieldsOfJoin(words[1..]);
      SplitOfField(Space, words[0]);
      SplitOfConcat(Space, words[0], " ");
      assert Split(Space, " ") == [] by { assert " "[1..] == ""; }
      SplitOfConcat(Space, words[0] + " ", rest);
      assert words == [words[0]] + words[1..];
    }
  }

  lemma {:induction false} JoinAppend(words: seq<string>, w: string, sep: string)
    requires words != []
    ensures Join(words + [w], sep) == Join(words, sep) + sep + w
  {
    if |words| == 1 {
      assert (words + [w])[1..] == [w];
    } else {
      assert (words + [w])[1..] == words[1..] + [w];
      JoinAppend(words[1..], w, sep);
    }
  }

  lemma {:induction false} JoinLength(words: seq<string>, bound: nat)
    requires words != []
    requires forall k :: 0 <= k < |words| ==> |words[k]| <= bound
    ensures |Join(words, " ")| <= |words| * (bound + 1) - 1
  {
    if |words| > 1 {
      JoinLength(words[1..], bound);
      assert |words| * (bound + 1) == |words[1..]| * (bound + 1) + bound + 1;
    }
  }

  lemma {:induction false} JoinTrimmed(words: seq<string>)
    requires words != []
    requires forall k :: 0 <= k < |words| ==> IsField(Space, words[k])
    ensures Join(words, " ") != "" && Trimmed(Join(words, " "))
    ensures Join(words, " ")[0] == words[0][0]
  {
    if |words| > 1 {
      JoinTrimmed(words[1..]);
    }
  }

  /* ---------- Splitting lines first makes no difference to the fields ---------- */

  function Flatten<T>(xss: seq<seq<T>>): seq<T> {
    if xss == [] then [] else xss[0] + Flatten(xss[1..])
  }

  lemma {:induction false} FlattenAppend<T>(xss: seq<seq<T>>, yss: seq<seq<T>>)
    ensures Flatten(xss + yss) == Flatten(xss) + Flatten(yss)
  {
    if xss == [] {
      assert xss + yss == yss;
    } else {
      assert (xss + yss)[1..] == xss[1..] + yss;
      FlattenAppend(xss[1..], yss);
    }
  }

  function FieldsOfAll(parts: seq<string>): seq<seq<string>> {
    seq(|parts|, i requires 0 <= i < |parts| => Fields(parts[i]))
  }

  lemma {:induction false} FieldsByLine(s: string)
    ensures Flatten(FieldsOfAll(Split(LineEnd, s))) == Fields(s)
    decreases |s|
  {
    if s != "" {
      if LineEnd.Splits(s[0]) {
        FieldsByLine(s[1..]);
      } else {
        var n := Run(LineEnd, s);
        var line, rest := s[..n], s[n..];
        assert s == line + rest;
        SplitOfConcat(Space, line, rest);
        FieldsByLine(rest);
        var parts := Split(LineEnd, rest);
        assert FieldsOfAll([line] + parts) == [Fields(line)] + FieldsOfAll(parts);
        assert FieldsOfAll([line] + parts)[1..] == FieldsOfAll(parts);
      }
    }
  }
}
