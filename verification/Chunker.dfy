/** The text chunker.

    The specification works on events: the words of the text, the pieces of its over-long
    words and the ends of its lines. A block is what one chunk is cut from: the text
    carried over from the previous chunk, then the events written since. The imperative
    chunker at the end keeps only a string buffer, a rune counter and the chunks; it is
    proved to emit the trimmed text of every block. */
module Chunker {
  import opened Text
  import opened Wrappers

  datatype Candidate = Candidate(index: nat, content: string, tokenCount: nat)

  /** An external encoder of texts as tokens: any pair of functions. */
  datatype Codec = Codec(encode: string -> seq<nat>, decode: seq<nat> -> string)

  /** Without an encoder words are counted. */
  datatype Config = Config(maxTokens: nat, overlap: nat, encoder: Option<Codec>) {
    predicate Valid() {
      maxTokens > 0
    }

    /** The overlap is cut at words: what an encoder makes of the last tokens of a text is not
        known. */
    predicate CutsAtWords() {
      encoder.None? || overlap == 0
    }

    function MaxRunes(): nat {
      maxTokens * 5
    }
  }

  function Max(a: int, b: int): int {
    if a >= b then a else b
  }

  function CountTokens(cfg: Config, s: string): nat {
    if s == "" then 0
    else match cfg.encoder
      case Some(codec) => |codec.encode(s)|
      case None => |Fields(s)|
  }

  /** The last `n` of some words, or all of them. */
  function Last(words: seq<string>, n: nat): seq<string> {
    if |words| <= n then words else words[|words| - n..]
  }

  function TailTokens(cfg: Config, s: string, limit: int): string {
    if limit <= 0 || s == "" then ""
    else match cfg.encoder
      case Some(codec) =>
        var ids := codec.encode(s);
        if |ids| <= limit then s + " " else codec.decode(ids[|ids| - limit..]) + " "
      case None =>
        if |Fields(s)| <= limit then s + " " else Join(Last(Fields(s), limit), " ") + " "
  }

  /* ---------- Events and blocks ---------- */

  datatype Event =
    | Word(text: string)
    | Piece(text: string, last: bool)
    | LineEnds

  datatype Block = Block(carry: string, events: seq<Event>)

  datatype State = State(done: seq<Block>, open: Block)

  const FRESH := Block("", [])

  function Ink(e: Event): string {
    match e
    case Word(w) => w + " "
    case Piece(p, _) => p + " "
    case LineEnds => "\n"
  }

  function Inked(events: seq<Event>): string {
    if events == [] then "" else Inked(events[..|events| - 1]) + Ink(events[|events| - 1])
  }

  /** The text of a block, as it stands in the buffer. */
  function Raw(b: Block): string {
    b.carry + Inked(b.events)
  }

  function Content(b: Block): string {
    Trim(Raw(b))
  }

  /** The words and pieces among some events. */
  function Texts(events: seq<Event>): seq<string> {
    if events == [] then []
    else
      var e := events[|events| - 1];
      Texts(events[..|events| - 1]) + (if e.LineEnds? then [] else [e.text])
  }

  function Flush(st: State): State {
    if Content(st.open) == "" then State(st.done, FRESH) else State(st.done + [st.open], FRESH)
  }

  /** The overlap taken from the last finished chunk. */
  function Carry(cfg: Config, done: seq<Block>): string {
    if cfg.overlap > 0 && done != [] then TailTokens(cfg, Content(done[|done| - 1]), cfg.overlap) else ""
  }

  function Write(st: State, e: Event): State {
    State(st.done, Block(st.open.carry, st.open.events + [e]))
  }

  /** A word no longer fits behind this text. */
  predicate Full(cfg: Config, raw: string, w: string) {
    |raw| + |w| > cfg.MaxRunes() || CountTokens(cfg, raw + w) >= cfg.maxTokens
  }

  function Step(cfg: Config, st: State, e: Event): State {
    match e
    case Word(w) =>
      if Full(cfg, Raw(st.open), w) then
        var f := Flush(st);
        Write(State(f.done, Block(Carry(cfg, f.done), [])), e)
      else Write(st, e)
    case Piece(p, last) =>
      var room := if |Raw(st.open)| + |p| > cfg.MaxRunes() then Flush(st) else st;
      if last then Write(room, e) else Flush(Write(room, e))
    case LineEnds => Write(st, e)
  }

  function Feed(cfg: Config, events: seq<Event>): State {
    if events == [] then State([], FRESH)
    else Step(cfg, Feed(cfg, events[..|events| - 1]), events[|events| - 1])
  }

  lemma FeedAppend(cfg: Config, events: seq<Event>, e: Event)
    ensures Feed(cfg, events + [e]) == Step(cfg, Feed(cfg, events), e)
  {
    assert (events + [e])[..|events + [e]| - 1] == events;
  }

  /* ---------- The events of a text ---------- */

  /** Cuts an over-long word into pieces of `n` runes, the last one possibly shorter. */
  function Pieces(word: string, n: nat): seq<string>
    requires n > 0
  {
    if |word| <= n then [word] else [word[..n]] + Pieces(word[n..], n)
  }

  lemma {:induction false} PiecesOfWord(word: string, n: nat)
    requires n > 0
    ensures Flatten(Pieces(word, n)) == word
    ensures var ps := Pieces(word, n);
            && |ps| > 0 && |ps[|ps| - 1]| <= n
            && (forall k :: 0 <= k < |ps| - 1 ==> |ps[k]| == n)
            && (word != "" ==> forall k :: 0 <= k < |ps| ==> ps[k] != "")
    ensures (forall i :: 0 <= i < |word| ==> !IsSpace(word[i])) ==>
              forall k, i :: 0 <= k < |Pieces(word, n)| && 0 <= i < |Pieces(word, n)[k]| ==> !IsSpace(Pieces(word, n)[k][i])
  {
    if |word| > n {
      PiecesOfWord(word[n..], n);
      assert Pieces(word, n)[1..] == Pieces(word[n..], n);
      assert word == word[..n] + word[n..];
    } else {
      assert Flatten([word]) == word + Flatten<char>([]);
    }
  }

  function PieceEvents(ps: seq<string>): seq<Event> {
    seq(|ps|, i requires 0 <= i < |ps| => Piece(ps[i], i == |ps| - 1))
  }

  function WordEvents(cfg: Config, word: string): seq<Event>
    requires cfg.Valid()
  {
    if |word| > cfg.MaxRunes() then PieceEvents(Pieces(word, cfg.MaxRunes())) else [Word(word)]
  }

  function WordsEvents(cfg: Config, words: seq<string>): seq<Event>
    requires cfg.Valid()
  {
    if words == [] then []
    else WordsEvents(cfg, words[..|words| - 1]) + WordEvents(cfg, words[|words| - 1])
  }

  function PartsEvents(cfg: Config, parts: seq<string>): seq<Event>
    requires cfg.Valid()
  {
    if parts == [] then []
    else PartsEvents(cfg, parts[..|parts| - 1]) + WordsEvents(cfg, Fields(parts[|parts| - 1])) + [LineEnds]
  }

  /** The finished blocks of a text. */
  function Blocks(cfg: Config, text: string): seq<Block>
    requires cfg.Valid()
  {
    if Trim(text) == "" then []
    else
      var st := Feed(cfg, PartsEvents(cfg, Split(LineEnd, Trim(text))));
      if Raw(st.open) == "" then st.done else Flush(st).done
  }

  function Emit(cfg: Config, blocks: seq<Block>): seq<Candidate> {
    seq(|blocks|, i requires 0 <= i < |blocks| =>
      Candidate(i, Content(blocks[i]), CountTokens(cfg, Content(blocks[i]))))
  }

  function Chunks(cfg: Config, text: string): seq<Candidate>
    requires cfg.Valid()
  {
    Emit(cfg, Blocks(cfg, text))
  }

  /** The words of the text, the over-long ones replaced by their pieces. */
  function Expanded(cfg: Config, words: seq<string>): seq<string>
    requires cfg.Valid()
  {
    if words == [] then []
    else
      var w := words[|words| - 1];
      Expanded(cfg, words[..|words| - 1]) +
      (if |w| > cfg.MaxRunes() then Pieces(w, cfg.MaxRunes()) else [w])
  }

  /* ---------- Words and pieces are fields, of bounded length ---------- */

  ghost predicate Sound(cfg: Config, e: Event) {
    match e
    case Word(w) => IsField(Space, w) && |w| <= cfg.MaxRunes()
    case Piece(p, last) => IsField(Space, p) && |p| <= cfg.MaxRunes() && (!last ==> |p| == cfg.MaxRunes())
    case LineEnds => true
  }

  ghost predicate AllSound(cfg: Config, events: seq<Event>) {
    forall k :: 0 <= k < |events| ==> Sound(cfg, events[k])
  }

  lemma WordEventsSound(cfg: Config, word: string)
    requires cfg.Valid() && IsField(Space, word)
    ensures AllSound(cfg, WordEvents(cfg, word))
  {
    PiecesOfWord(word, cfg.MaxRunes());
  }

  lemma {:induction false} WordsEventsSound(cfg: Config, words: seq<string>)
    requires cfg.Valid() && forall k :: 0 <= k < |words| ==> IsField(Space, words[k])
    ensures AllSound(cfg, WordsEvents(cfg, words))
  {
    if words != [] {
      WordsEventsSound(cfg, words[..|words| - 1]);
      WordEventsSound(cfg, words[|words| - 1]);
    }
  }

  lemma {:induction false} PartsEventsSound(cfg: Config, parts: seq<string>)
    requires cfg.Valid()
    ensures AllSound(cfg, PartsEvents(cfg, parts))
  {
    if parts != [] {
      var part := parts[|parts| - 1];
      PartsEventsSound(cfg, parts[..|parts| - 1]);
      SplitGivesFields(Space, part);
      WordsEventsSound(cfg, Fields(part));
    }
  }

  /* ---------- The words of the events are the words of the text ---------- */

  lemma {:induction false} TextsAppend(a: seq<Event>, b: seq<Event>)
    ensures Texts(a + b) == Texts(a) + Texts(b)
  {
    if b == [] {
      assert a + b == a;
    } else {
      assert (a + b)[..|a + b| - 1] == a + b[..|b| - 1];
      TextsAppend(a, b[..|b| - 1]);
    }
  }

  lemma {:induction false} TextsOfPieces(ps: seq<string>, n: nat)
    requires n <= |ps|
    ensures Texts(PieceEvents(ps)[..n]) == ps[..n]
  {
    if n > 0 {
      assert PieceEvents(ps)[..n][..n - 1] == PieceEvents(ps)[..n - 1];
      TextsOfPieces(ps, n - 1);
    }
  }

  lemma {:induction false} TextsOfWords(cfg: Config, words: seq<string>)
    requires cfg.Valid()
    ensures Texts(WordsEvents(cfg, words)) == Expanded(cfg, words)
  {
    if words != [] {
      var w := words[|words| - 1];
      TextsOfWords(cfg, words[..|words| - 1]);
      TextsAppend(WordsEvents(cfg, words[..|words| - 1]), WordEvents(cfg, w));
      if |w| > cfg.MaxRunes() {
        var ps := Pieces(w, cfg.MaxRunes());
        TextsOfPieces(ps, |ps|);
        assert PieceEvents(ps)[..|ps|] == PieceEvents(ps);
        assert ps[..|ps|] == ps;
      } else {
        assert Texts([Word(w)]) == Texts([]) + [w];
      }
    }
  }

  /** A word of up to five runes for every allowed token is kept whole; a longer one is cut into
      pieces of exactly that length and a rest. */
  lemma ExpandedWord(cfg: Config, w: string)
    requires cfg.Valid() && w != ""
    ensures |w| <= 5 * cfg.maxTokens ==> Expanded(cfg, [w]) == [w]
    ensures |w| > 5 * cfg.maxTokens ==>
              var ps := Expanded(cfg, [w]);
              && Flatten(ps) == w && |ps| > 1 && 0 < |ps[|ps| - 1]| <= 5 * cfg.maxTokens
              && forall k :: 0 <= k < |ps| - 1 ==> |ps[k]| == 5 * cfg.maxTokens
  {
    hide Pieces, Flatten;
    assert [w][..0] == [] && Expanded(cfg, []) == [];
    assert Expanded(cfg, [w]) == if |w| > cfg.MaxRunes() then Pieces(w, cfg.MaxRunes()) else [w];
    if |w| > 5 * cfg.maxTokens {
      PiecesOfLongWord(w, cfg.MaxRunes());
    }
  }

  lemma PiecesOfLongWord(w: string, n: nat)
    requires 0 < n < |w|
    ensures var ps := Pieces(w, n);
            && Flatten(ps) == w && |ps| > 1 && 0 < |ps[|ps| - 1]| <= n
            && forall k :: 0 <= k < |ps| - 1 ==> |ps[k]| == n
  {
    hide Flatten;
    PiecesOfWord(w, n);
    PiecesOfWord(w[n..], n);
  }

  lemma {:induction false} ExpandedAppend(cfg: Config, a: seq<string>, b: seq<string>)
    requires cfg.Valid()
    ensures Expanded(cfg, a + b) == Expanded(cfg, a) + Expanded(cfg, b)
  {
    if b == [] {
      assert a + b == a;
    } else {
      assert (a + b)[..|a + b| - 1] == a + b[..|b| - 1];
      ExpandedAppend(cfg, a, b[..|b| - 1]);
    }
  }

  lemma TextsOfPart(cfg: Config, prior: seq<Event>, words: seq<string>)
    requires cfg.Valid()
    ensures Texts(prior + WordsEvents(cfg, words) + [LineEnds]) == Texts(prior) + Expanded(cfg, words)
  {
    TextsOfWords(cfg, words);
    TextsAppend(prior, WordsEvents(cfg, words));
    TextsAppend(prior + WordsEvents(cfg, words), [LineEnds]);
    assert Texts([LineEnds]) == Texts([]);
  }

  lemma ExpandedParts(cfg: Config, prior: seq<string>, part: string)
    requires cfg.Valid()
    ensures Expanded(cfg, Flatten(FieldsOfAll(prior + [part]))) ==
            Expanded(cfg, Flatten(FieldsOfAll(prior))) + Expanded(cfg, Fields(part))
  {
    assert FieldsOfAll(prior + [part]) == FieldsOfAll(prior) + [Fields(part)];
    FlattenAppend(FieldsOfAll(prior), [Fields(part)]);
    assert Flatten([Fields(part)]) == Fields(part) by {
      assert [Fields(part)][1..] == [];
    }
    ExpandedAppend(cfg, Flatten(FieldsOfAll(prior)), Fields(part));
  }

  lemma {:induction false} TextsOfParts(cfg: Config, parts: seq<string>)
    requires cfg.Valid()
    ensures Texts(PartsEvents(cfg, parts)) == Expanded(cfg, Flatten(FieldsOfAll(parts)))
  {
    if parts != [] {
      var prior, part := parts[..|parts| - 1], parts[|parts| - 1];
      TextsOfParts(cfg, prior);
      TextsOfPart(cfg, PartsEvents(cfg, prior), Fields(part));
      ExpandedParts(cfg, prior, part);
      assert parts == prior + [part];
    } else {
      assert FieldsOfAll(parts) == [];
    }
  }

  /* ---------- The words of a block ---------- */

  /** A buffer is empty or ends in white space. */
  predicate Open(s: string) {
    s == "" || IsSpace(s[|s| - 1])
  }

  lemma FieldsOfWritten(e: Event, raw: string, cfg: Config)
    requires Sound(cfg, e) && Open(raw)
    ensures Open(raw + Ink(e))
    ensures Fields(raw + Ink(e)) == Fields(raw) + (if e.LineEnds? then [] else [e.text])
  {
    SplitOfConcat(Space, raw, Ink(e));
    if e.LineEnds? {
      assert "\n"[1..] == "";
    } else {
      SplitPeels(Space, e.text, " ");
      assert " "[1..] == "";
    }
  }

  lemma {:induction false} FieldsOfRaw(cfg: Config, b: Block)
    requires AllSound(cfg, b.events) && Open(b.carry)
    ensures Open(Raw(b))
    ensures Fields(Raw(b)) == Fields(b.carry) + Texts(b.events)
    decreases |b.events|
  {
    hide Split, IsSpace, Sound, Fields, Trim;
    if b.events == [] {
      assert Raw(b) == b.carry;
    } else {
      hide Raw, Texts, Ink;
      var n := |b.events| - 1;
      var prior, e := Block(b.carry, b.events[..n]), b.events[n];
      FieldsOfRaw(cfg, prior);
      RawOfExtend(prior, e);
      assert Extend(prior, e) == b;
      FieldsOfWritten(e, Raw(prior), cfg);
      Assoc(Fields(b.carry), Texts(prior.events), if e.LineEnds? then [] else [e.text]);
    }
  }

  lemma FieldsOfContent(cfg: Config, b: Block)
    requires AllSound(cfg, b.events) && Open(b.carry)
    ensures Fields(Content(b)) == Fields(b.carry) + Texts(b.events)
    ensures Content(b) == "" <==> Fields(Content(b)) == []
  {
    FieldsOfRaw(cfg, b);
    FieldsOfTrim(Raw(b));
    TrimTrims(Raw(b));
    if Content(b) != "" {
      FieldsOfInk(Content(b));
    }
  }

  /** The overlap: the last words of the previous chunk, ready to be written on. */
  lemma CarryWords(cfg: Config, s: string)
    requires Trimmed(s)
    ensures Open(TailTokens(cfg, s, cfg.overlap))
    ensures cfg.CutsAtWords() ==> Fields(TailTokens(cfg, s, cfg.overlap)) == Last(Fields(s), cfg.overlap)
  {
    assert " "[1..] == "";
    if cfg.CutsAtWords() && cfg.overlap > 0 && s != "" {
      if |Fields(s)| <= cfg.overlap {
        SplitOfConcat(Space, s, " ");
      } else {
        var words := Last(Fields(s), cfg.overlap);
        SplitGivesFields(Space, s);
        FieldsOfJoin(words);
        SplitOfConcat(Space, Join(words, " "), " ");
      }
    } else if s != "" {
      assert Last(Fields(s), 0) == [];
    }
  }

  /* ---------- What every block satisfies ---------- */

  ghost predicate EndsInsideWord(b: Block) {
    b.events != [] && b.events[|b.events| - 1].Piece? && !b.events[|b.events| - 1].last
  }

  /** More than the length of `words` bounded words with one rune between them. */
  function Room(cfg: Config, words: nat): nat {
    words * (cfg.MaxRunes() + 1)
  }

  /** The sizes of a block, in runes and in words. */
  ghost predicate Sized(cfg: Config, b: Block) {
    var words := Fields(Content(b));
    && (forall k :: 0 <= k < |words| ==> |words[k]| <= cfg.MaxRunes())
    && (Content(b) != "" ==> |Content(b)| < Room(cfg, |words|))
    && (|Content(b)| <= cfg.MaxRunes() || (cfg.overlap > 0 && |words| <= cfg.overlap + 1))
    && (cfg.encoder.None? ==> |words| <= Max(cfg.maxTokens - 1, cfg.overlap + 1))
  }

  /** Whatever is carried over, at most one word too many stands behind it. */
  ghost predicate Bounded(cfg: Config, b: Block) {
    && |Content(b)| <= |b.carry| + cfg.MaxRunes()
    && (cfg.CutsAtWords() ==> Sized(cfg, b))
  }

  /** A new block was opened because it had to be: its first word no longer fitted behind
      the previous block, or is a piece of an over-long word. */
  ghost predicate Forced(cfg: Config, before: seq<Block>, b: Block) {
    before != [] && b.events != [] ==>
      match b.events[0]
      case Word(w) => Full(cfg, Raw(before[|before| - 1]), w)
      case Piece(_, _) => true
      case LineEnds => false
  }

  /** What was written behind something else in the block had room there, is no piece, and
      does not follow the inside of an over-long word. */
  ghost predicate Fits(cfg: Config, b: Block) {
    forall i :: 1 <= i < |b.events| ==> FitsBehind(cfg, Block(b.carry, b.events[..i]), b.events[i])
  }

  ghost predicate FitsBehind(cfg: Config, b: Block, e: Event) {
    && !e.Piece?
    && (e.Word? ==> !Full(cfg, Raw(b), e.text))
    && !EndsInsideWord(b)
  }

  /** The overlap is carried over exactly when the block opens with a whole word. */
  ghost predicate Carried(cfg: Config, before: seq<Block>, b: Block) {
    b.events != [] && !b.events[0].LineEnds? &&
    b.carry == if before != [] && b.events[0].Word? then Carry(cfg, before) else ""
  }

  ghost predicate Good(cfg: Config, before: seq<Block>, b: Block) {
    && AllSound(cfg, b.events)
    && Carried(cfg, before, b) && Open(b.carry)
    && Bounded(cfg, b) && Forced(cfg, before, b) && Fits(cfg, b)
  }

  ghost predicate AllGood(cfg: Config, blocks: seq<Block>) {
    forall k :: 0 <= k < |blocks| ==> Good(cfg, blocks[..k], blocks[k]) && Content(blocks[k]) != ""
  }

  lemma {:induction false} TextsNonEmpty(events: seq<Event>)
    requires events != [] && !events[0].LineEnds?
    ensures Texts(events) != []
  {
    if |events| > 1 {
      TextsNonEmpty(events[..|events| - 1]);
    }
  }

  lemma BlockHasInk(cfg: Config, before: seq<Block>, b: Block)
    requires Good(cfg, before, b)
    ensures Content(b) != ""
  {
    TextsNonEmpty(b.events);
    FieldsOfContent(cfg, b);
  }

  function Extend(b: Block, e: Event): Block {
    Block(b.carry, b.events + [e])
  }

  lemma Blank(e: Event)
    ensures Raw(FRESH) == "" && Content(FRESH) == "" && Texts([]) == []
    ensures Extend(FRESH, e) == Block("", [e])
    ensures Texts([e]) == if e.LineEnds? then [] else [e.text]
  {
    hide Split, IsSpace;
    TrimOfTrimmed("");
    assert Raw(FRESH) == "";
    assert [e][..0] == [];
  }

  lemma RawOfExtend(b: Block, e: Event)
    ensures Raw(Extend(b, e)) == Raw(b) + Ink(e)
    ensures Texts(Extend(b, e).events) == Texts(b.events) + (if e.LineEnds? then [] else [e.text])
    ensures Content(Extend(b, e)) == if e.LineEnds? then Content(b) else Trim(Raw(b) + e.text)
  {
    var x := b.events + [e];
    assert x[..|x| - 1] == b.events;
    assert Raw(Extend(b, e)) == Raw(b) + Ink(e);
    if e.LineEnds? {
      TrimOfPadded(Raw(b), '\n');
    } else {
      assert Raw(b) + Ink(e) == Raw(b) + e.text + [' '];
      TrimOfPadded(Raw(b) + e.text, ' ');
    }
  }

  lemma FitsExtends(cfg: Config, b: Block, e: Event)
    requires Fits(cfg, b) && FitsBehind(cfg, b, e)
    ensures Fits(cfg, Extend(b, e))
  {
    var x := Extend(b, e);
    forall i | 1 <= i < |x.events|
      ensures FitsBehind(cfg, Block(x.carry, x.events[..i]), x.events[i])
    {
      assert x.events[..i] == b.events[..i];
      assert b.events[..|b.events|] == b.events;
    }
  }

  lemma ShortEnough(cfg: Config, length: nat, words: nat)
    requires words >= 1 && length <= cfg.MaxRunes()
    ensures length < Room(cfg, words)
  {
    assert words * (cfg.MaxRunes() + 1) >= 1 * (cfg.MaxRunes() + 1);
  }

  /** A block to which a word was added that fitted. */
  lemma SizedExtends(cfg: Config, b: Block, e: Event)
    requires AllSound(cfg, b.events) && Open(b.carry) && Sound(cfg, e) && !e.LineEnds?
    requires Sized(cfg, b)
    requires |Raw(b)| + |e.text| <= cfg.MaxRunes()
    requires cfg.encoder.None? ==> |Fields(Raw(b))| + 1 <= Max(cfg.maxTokens - 1, cfg.overlap + 1)
    ensures Sized(cfg, Extend(b, e))
  {
    hide Raw, Texts, Split, Trim, IsSpace, CountTokens, Room;
    var x := Extend(b, e);
    FieldsOfContent(cfg, b);
    FieldsOfRaw(cfg, b);
    FieldsOfContent(cfg, x);
    RawOfExtend(b, e);
    TrimTrims(Raw(b) + e.text);
    assert Fields(Content(x)) == Fields(Content(b)) + [e.text];
    ShortEnough(cfg, |Content(x)|, |Fields(Content(x))|);
  }

  lemma BoundedExtends(cfg: Config, b: Block, e: Event)
    requires AllSound(cfg, b.events) && Open(b.carry) && Sound(cfg, e) && !e.LineEnds?
    requires Bounded(cfg, b)
    requires |Raw(b)| + |e.text| <= cfg.MaxRunes()
    requires cfg.encoder.None? ==> |Fields(Raw(b))| + 1 <= Max(cfg.maxTokens - 1, cfg.overlap + 1)
    ensures Bounded(cfg, Extend(b, e))
  {
    hide Raw, Texts, Split, Trim, IsSpace, CountTokens, Room, Sized;
    RawOfExtend(b, e);
    TrimTrims(Raw(b) + e.text);
    if cfg.CutsAtWords() {
      SizedExtends(cfg, b, e);
    }
  }

  lemma WriteFits(cfg: Config, before: seq<Block>, b: Block, e: Event)
    requires Good(cfg, before, b) && Sound(cfg, e) && FitsBehind(cfg, b, e)
    ensures Good(cfg, before, Extend(b, e))
  {
    hide Raw, Texts, Split, Trim, IsSpace, CountTokens, Room, Full, Bounded, Fits;
    FitsExtends(cfg, b, e);
    RawOfExtend(b, e);
    if e.Word? {
      FieldsOfRaw(cfg, b);
      WordFits(cfg, b, e.text);
      BoundedExtends(cfg, b, e);
    } else {
      BoundedByContent(cfg, b, Extend(b, e));
    }
  }

  /** Sizes only depend on the content and the overlap. */
  lemma BoundedByContent(cfg: Config, a: Block, b: Block)
    requires Bounded(cfg, a) && Content(a) == Content(b) && a.carry == b.carry
    ensures Bounded(cfg, b)
  {
  }

  lemma WordFits(cfg: Config, b: Block, w: string)
    requires Open(Raw(b)) && IsField(Space, w) && !Full(cfg, Raw(b), w)
    ensures |Raw(b)| + |w| <= cfg.MaxRunes()
    ensures cfg.encoder.None? ==> |Fields(Raw(b))| + 1 < cfg.maxTokens
  {
    SplitOfConcat(Space, Raw(b), w);
    SplitOfField(Space, w);
  }

  /* ---------- Opening a block ---------- */

  /** A block that opens with a word, behind whatever is carried over. */
  lemma OpenWithWord(cfg: Config, before: seq<Block>, w: string)
    requires cfg.Valid() && AllGood(cfg, before) && IsField(Space, w) && |w| <= cfg.MaxRunes()
    requires before != [] ==> Full(cfg, Raw(before[|before| - 1]), w)
    ensures Good(cfg, before, Block(Carry(cfg, before), [Word(w)]))
  {
    hide Bounded, Trim, Split, IsSpace, Full, Texts, Raw, TailTokens;
    var carry := Carry(cfg, before);
    var b := Block(carry, [Word(w)]);
    if carry == "" {
      BoundedAlone(cfg, Word(w));
    } else {
      var n := |before| - 1;
      var prev := before[n];
      assert Good(cfg, before[..n], prev) && Content(prev) != "";
      TrimTrims(Raw(prev));
      CarryWords(cfg, Content(prev));
      BoundedBehindCarry(cfg, prev, w);
    }
  }

  lemma BoundedAlone(cfg: Config, e: Event)
    requires Sound(cfg, e) && !e.LineEnds?
    ensures Bounded(cfg, Block("", [e]))
  {
    hide Sized, Content;
    ContentAlone(cfg, e);
    SizedAlone(cfg, e);
  }

  lemma BoundedBehindCarry(cfg: Config, prev: Block, w: string)
    requires cfg.Valid() && cfg.overlap > 0
    requires Bounded(cfg, prev) && Content(prev) != "" && Trimmed(Content(prev))
    requires IsField(Space, w) && |w| <= cfg.MaxRunes()
    ensures Bounded(cfg, Block(TailTokens(cfg, Content(prev), cfg.overlap), [Word(w)]))
  {
    hide Sized, Content, TailTokens, IsSpace;
    CarryWords(cfg, Content(prev));
    WordBehindCarry(cfg, TailTokens(cfg, Content(prev), cfg.overlap), w);
    if cfg.CutsAtWords() {
      SizedBehindCarry(cfg, prev, w);
    }
  }

  lemma SizedAlone(cfg: Config, e: Event)
    requires Sound(cfg, e) && !e.LineEnds?
    ensures Sized(cfg, Block("", [e]))
  {
    hide Raw, Content, Trim, Split, Texts, Room, CountTokens;
    ContentAlone(cfg, e);
    SplitOfField(Space, e.text);
    ShortEnough(cfg, |e.text|, 1);
  }

  lemma ContentAlone(cfg: Config, e: Event)
    requires Sound(cfg, e) && !e.LineEnds?
    ensures Content(Block("", [e])) == e.text
  {
    hide Trim, Split, Texts;
    Blank(e);
    RawOfExtend(FRESH, e);
    assert Raw(FRESH) + e.text == e.text;
    TrimOfTrimmed(e.text);
  }

  lemma CarryLength(cfg: Config, prev: Block)
    requires cfg.CutsAtWords() && Sized(cfg, prev) && Content(prev) != ""
    ensures var carry := TailTokens(cfg, Content(prev), cfg.overlap);
            |carry| <= Room(cfg, |Last(Fields(Content(prev)), cfg.overlap)|)
  {
    hide Raw, Texts, Split, Trim, IsSpace, CountTokens;
    if 0 < cfg.overlap < |Fields(Content(prev))| {
      JoinLength(Last(Fields(Content(prev)), cfg.overlap), cfg.MaxRunes());
    }
  }

  lemma SizedBehindCarry(cfg: Config, prev: Block, w: string)
    requires cfg.Valid() && cfg.CutsAtWords() && cfg.overlap > 0
    requires Sized(cfg, prev) && Content(prev) != "" && Trimmed(Content(prev))
    requires IsField(Space, w) && |w| <= cfg.MaxRunes()
    ensures Sized(cfg, Block(TailTokens(cfg, Content(prev), cfg.overlap), [Word(w)]))
  {
    hide Raw, Texts, Split, Trim, Content, IsSpace, CountTokens, TailTokens, Room;
    var tail := Last(Fields(Content(prev)), cfg.overlap);
    var x := Block(TailTokens(cfg, Content(prev), cfg.overlap), [Word(w)]);
    CarryWords(cfg, Content(prev));
    CarryLength(cfg, prev);
    WordBehindCarry(cfg, x.carry, w);
    assert Fields(Content(x)) == tail + [w];
    RoomGrows(cfg, |tail|);
  }

  lemma RoomGrows(cfg: Config, n: nat)
    ensures Room(cfg, n + 1) == Room(cfg, n) + cfg.MaxRunes() + 1
  {
  }

  lemma WordBehindCarry(cfg: Config, carry: string, w: string)
    requires Open(carry) && IsField(Space, w) && |w| <= cfg.MaxRunes()
    ensures var x := Block(carry, [Word(w)]);
            Fields(Content(x)) == Fields(carry) + [w] && |Content(x)| <= |carry| + |w|
  {
    hide Texts, Split, Trim, IsSpace;
    var b, x := Block(carry, []), Block(carry, [Word(w)]);
    FieldsOfContent(cfg, x);
    Blank(Word(w));
    RawOfExtend(b, Word(w));
    assert Extend(b, Word(w)) == x;
    assert Raw(b) == carry;
    TrimTrims(Raw(b) + w);
  }

  lemma NoFields()
    ensures Fields("") == []
  {
  }

  /** A block that opens with a piece carries nothing over. */
  lemma OpenWithPiece(cfg: Config, before: seq<Block>, e: Event)
    requires Sound(cfg, e) && e.Piece?
    ensures Good(cfg, before, Block("", [e]))
  {
    hide Bounded;
    BoundedAlone(cfg, e);
  }

  /* ---------- The invariant of a run ---------- */

  /** Pieces of one word stand together, the last one marked. */
  ghost predicate PiecesTogether(events: seq<Event>) {
    forall i :: 0 <= i < |events| ==> TogetherAt(events, i)
  }

  ghost predicate TogetherAt(events: seq<Event>, i: nat)
    requires i < |events|
  {
    events[i].Piece? ==>
      && (!events[i].last && i + 1 < |events| ==> events[i + 1].Piece?)
      && (events[i].last ==> i > 0 && events[i - 1].Piece? && !events[i - 1].last)
  }

  function AllTexts(blocks: seq<Block>): seq<string> {
    if blocks == [] then []
    else AllTexts(blocks[..|blocks| - 1]) + Texts(blocks[|blocks| - 1].events)
  }

  ghost predicate Inv(cfg: Config, events: seq<Event>, st: State) {
    && AllGood(cfg, st.done)
    && (st.open != FRESH ==> Good(cfg, st.done, st.open) && !EndsInsideWord(st.open))
    && (st.open == FRESH ==> (events == [] && st.done == []) || EndsInsideWord(Block("", events)))
    && (EndsInsideWord(Block("", events)) ==> st.open == FRESH)
    && AllTexts(st.done) + Texts(st.open.events) == Texts(events)
  }

  lemma AllGoodAppend(cfg: Config, done: seq<Block>, b: Block)
    requires AllGood(cfg, done) && Good(cfg, done, b) && Content(b) != ""
    ensures AllGood(cfg, done + [b])
    ensures AllTexts(done + [b]) == AllTexts(done) + Texts(b.events)
  {
    hide Good, Content, Texts;
    var all := done + [b];
    assert all[..|all| - 1] == done;
    forall k | 0 <= k < |all|
      ensures Good(cfg, all[..k], all[k]) && Content(all[k]) != ""
    {
      if k < |done| {
        assert all[..k] == done[..k];
      }
    }
  }

  lemma FlushKeeps(cfg: Config, st: State)
    requires AllGood(cfg, st.done) && Good(cfg, st.done, st.open)
    ensures AllGood(cfg, Flush(st).done)
    ensures AllTexts(Flush(st).done) == AllTexts(st.done) + Texts(st.open.events)
    ensures Flush(st).done == st.done + [st.open]
  {
    BlockHasInk(cfg, st.done, st.open);
    AllGoodAppend(cfg, st.done, st.open);
  }

  /** The words stay in step when one is written behind a state. */
  lemma WriteConserves(events: seq<Event>, st: State, done: seq<Block>, open: Block, e: Event)
    requires AllTexts(st.done) + Texts(st.open.events) == Texts(events)
    requires || (done == st.done && open == Extend(st.open, e))
             || (AllTexts(done) == AllTexts(st.done) + Texts(st.open.events) && open.events == [e])
    ensures AllTexts(done) + Texts(open.events) == Texts(events + [e])
  {
    hide Raw, Texts, Split, Trim, IsSpace, AllTexts;
    Blank(e);
    RawOfExtend(Block("", events), e);
    RawOfExtend(st.open, e);
    Assoc(AllTexts(st.done), Texts(st.open.events), if e.LineEnds? then [] else [e.text]);
  }

  lemma StepWord(cfg: Config, events: seq<Event>, st: State, w: string)
    requires cfg.Valid() && Inv(cfg, events, st) && Sound(cfg, Word(w))
    requires !EndsInsideWord(Block("", events))
    ensures Inv(cfg, events + [Word(w)], Step(cfg, st, Word(w)))
  {
    hide Raw, Texts, Split, Trim, IsSpace, CountTokens, TailTokens, Good, Full, AllTexts, AllGood, Carry, Flush, Content;
    var e := Word(w);
    var f := Flush(st);
    var next := Step(cfg, st, e);
    Blank(e);
    if st.open == FRESH {
      FlushOfFresh(st);
      NoCarry(cfg);
      OpenWithWord(cfg, [], w);
      WriteConserves(events, st, st.done, next.open, e);
    } else if Full(cfg, Raw(st.open), w) {
      FlushKeeps(cfg, st);
      OpenWithWord(cfg, f.done, w);
      assert next == State(f.done, Block(Carry(cfg, f.done), [e]));
      WriteConserves(events, st, f.done, next.open, e);
    } else {
      WriteFits(cfg, st.done, st.open, e);
      WriteConserves(events, st, st.done, next.open, e);
    }
  }

  lemma FlushOfFresh(st: State)
    requires st.open == FRESH
    ensures Flush(st) == st
  {
    Blank(LineEnds);
  }

  lemma NoCarry(cfg: Config)
    ensures Carry(cfg, []) == ""
  {
  }

  lemma StepLineEnds(cfg: Config, events: seq<Event>, st: State)
    requires cfg.Valid() && Inv(cfg, events, st)
    requires events != [] && !EndsInsideWord(Block("", events))
    ensures Inv(cfg, events + [LineEnds], Step(cfg, st, LineEnds))
  {
    hide Raw, Texts, Split, Trim, IsSpace, CountTokens, TailTokens, Fits, Full;
    RawOfExtend(Block("", events), LineEnds);
    RawOfExtend(st.open, LineEnds);
    WriteFits(cfg, st.done, st.open, LineEnds);
  }

  /** Whatever is open, a piece starts a block of its own. */
  lemma RoomForPiece(cfg: Config, events: seq<Event>, st: State, e: Event)
    returns (room: State)
    requires cfg.Valid() && Inv(cfg, events, st) && Sound(cfg, e) && e.Piece?
    requires st.open != FRESH ==> !e.last
    ensures room == if |Raw(st.open)| + |e.text| > cfg.MaxRunes() then Flush(st) else st
    ensures room.open == FRESH && AllGood(cfg, room.done)
    ensures AllTexts(room.done) == AllTexts(st.done) + Texts(st.open.events)
  {
    hide Raw, Texts, Split, Trim, IsSpace, CountTokens, Good, AllTexts;
    Blank(e);
    room := if |Raw(st.open)| + |e.text| > cfg.MaxRunes() then Flush(st) else st;
    if st.open != FRESH {
      GoodHasRunes(cfg, st.done, st.open);
      FlushKeeps(cfg, st);
    }
  }

  lemma GoodHasRunes(cfg: Config, before: seq<Block>, b: Block)
    requires Good(cfg, before, b)
    ensures |Raw(b)| > 0
  {
    RawHasRunes(b);
  }

  lemma FlushIsFresh(st: State)
    ensures Flush(st).open == FRESH
  {
    hide Content;
  }

  lemma StepPiece(cfg: Config, events: seq<Event>, st: State, e: Event)
    requires cfg.Valid() && Inv(cfg, events, st) && Sound(cfg, e) && e.Piece?
    requires e.last ==> EndsInsideWord(Block("", events))
    requires st.open != FRESH ==> !EndsInsideWord(Block("", events))
    ensures Inv(cfg, events + [e], Step(cfg, st, e))
  {
    hide Raw, Texts, Split, Trim, IsSpace, CountTokens, TailTokens, Good, Content, Full, AllTexts, AllGood, Flush;
    var room := RoomForPiece(cfg, events, st, e);
    var b := Block("", [e]);
    assert Write(room, e) == State(room.done, b);
    OpenWithPiece(cfg, room.done, e);
    WriteConserves(events, st, room.done, b, e);
    if !e.last {
      FlushKeeps(cfg, State(room.done, b));
      FlushIsFresh(State(room.done, b));
      assert Texts(FRESH.events) == [] by { Blank(e); }
    }
  }

  lemma RawHasRunes(b: Block)
    requires b.events != []
    ensures |Raw(b)| > 0
  {
    var n := |b.events| - 1;
    assert Inked(b.events) == Inked(b.events[..n]) + Ink(b.events[n]);
  }

  lemma PrefixTogether(events: seq<Event>)
    requires PiecesTogether(events) && events != []
    ensures var n := |events| - 1;
            && PiecesTogether(events[..n])
            && (EndsInsideWord(Block("", events[..n])) ==> events[n].Piece?)
            && (events[n].Piece? && events[n].last ==> EndsInsideWord(Block("", events[..n])))
  {
    var n := |events| - 1;
    var prior := events[..n];
    assert TogetherAt(events, n);
    if n > 0 {
      assert TogetherAt(events, n - 1);
    }
    forall i | 0 <= i < |prior|
      ensures TogetherAt(prior, i)
    {
      assert TogetherAt(events, i);
    }
  }

  /** The text is trimmed, so it does not begin with the end of a line. */
  ghost predicate BeginsWithText(events: seq<Event>) {
    events != [] ==> !events[0].LineEnds?
  }

  lemma FeedStarts(cfg: Config)
    ensures Inv(cfg, [], Feed(cfg, []))
  {
  }

  lemma {:induction false} FeedKeeps(cfg: Config, events: seq<Event>)
    requires cfg.Valid() && AllSound(cfg, events) && PiecesTogether(events) && BeginsWithText(events)
    ensures Inv(cfg, events, Feed(cfg, events))
  {
    hide Step, Inv, Sound, PiecesTogether;
    if events == [] {
      FeedStarts(cfg);
    } else {
      var n := |events| - 1;
      var prior, e := events[..n], events[n];
      PrefixTogether(events);
      FeedKeeps(cfg, prior);
      assert events == prior + [e];
      StepKeeps(cfg, prior, Feed(cfg, prior), e);
    }
  }

  lemma StepKeeps(cfg: Config, events: seq<Event>, st: State, e: Event)
    requires cfg.Valid() && Inv(cfg, events, st) && Sound(cfg, e)
    requires EndsInsideWord(Block("", events)) ==> e.Piece?
    requires e.Piece? && e.last ==> EndsInsideWord(Block("", events))
    requires e.LineEnds? ==> events != []
    ensures Inv(cfg, events + [e], Step(cfg, st, e))
  {
    hide Step, Sound, AllGood, AllTexts, Texts, EndsInsideWord, Good;
    match e
    case Word(w) => StepWord(cfg, events, st, w);
    case LineEnds => StepLineEnds(cfg, events, st);
    case Piece(_, _) => StepPiece(cfg, events, st, e);
  }

  /* ---------- The events of a text keep pieces together ---------- */

  ghost predicate Closed(events: seq<Event>) {
    PiecesTogether(events) && !EndsInsideWord(Block("", events))
  }

  lemma ClosedConcat(a: seq<Event>, b: seq<Event>)
    requires Closed(a) && Closed(b)
    ensures Closed(a + b)
  {
    var ab := a + b;
    forall i | 0 <= i < |ab|
      ensures TogetherAt(ab, i)
    {
      if i < |a| {
        assert TogetherAt(a, i);
        assert i == |a| - 1 || ab[i + 1] == a[i + 1];
      } else {
        assert TogetherAt(b, i - |a|);
      }
    }
    assert b != [] ==> ab[|ab| - 1] == b[|b| - 1];
    assert b == [] ==> ab == a;
  }

  lemma WordEventsClosed(cfg: Config, word: string)
    requires cfg.Valid()
    ensures Closed(WordEvents(cfg, word))
  {
    var events := WordEvents(cfg, word);
    if |word| > cfg.MaxRunes() {
      PiecesOfWord(word[cfg.MaxRunes()..], cfg.MaxRunes());
    }
    forall i | 0 <= i < |events|
      ensures TogetherAt(events, i)
    {
    }
  }

  lemma {:induction false} WordsEventsClosed(cfg: Config, words: seq<string>)
    requires cfg.Valid()
    ensures Closed(WordsEvents(cfg, words))
  {
    hide Closed, WordEvents;
    if words == [] {
      NothingClosed();
    } else {
      var n := |words| - 1;
      WordsEventsClosed(cfg, words[..n]);
      WordEventsClosed(cfg, words[n]);
      ClosedConcat(WordsEvents(cfg, words[..n]), WordEvents(cfg, words[n]));
    }
  }

  lemma NothingClosed()
    ensures Closed([]) && Closed([LineEnds])
  {
  }

  lemma {:induction false} PartsEventsClosed(cfg: Config, parts: seq<string>)
    requires cfg.Valid()
    ensures Closed(PartsEvents(cfg, parts))
  {
    hide Closed, WordsEvents, Split;
    NothingClosed();
    if parts != [] {
      var prior, words := parts[..|parts| - 1], Fields(parts[|parts| - 1]);
      PartsEventsClosed(cfg, prior);
      WordsEventsClosed(cfg, words);
      ClosedConcat(PartsEvents(cfg, prior), WordsEvents(cfg, words));
      ClosedConcat(PartsEvents(cfg, prior) + WordsEvents(cfg, words), [LineEnds]);
    }
  }

  /* ---------- Main results ---------- */

  lemma FinishKeeps(cfg: Config, events: seq<Event>, st: State)
    requires cfg.Valid() && Inv(cfg, events, st)
    ensures var done := if Raw(st.open) == "" then st.done else Flush(st).done;
            AllGood(cfg, done) && AllTexts(done) == Texts(events)
  {
    hide Raw, Texts, AllTexts, AllGood, Good;
    Blank(LineEnds);
    if st.open != FRESH {
      GoodHasRunes(cfg, st.done, st.open);
      FlushKeeps(cfg, st);
    }
  }

  lemma {:induction false} PartsEventsBegin(cfg: Config, parts: seq<string>)
    requires cfg.Valid() && parts != [] && Fields(parts[0]) != []
    ensures BeginsWithText(PartsEvents(cfg, parts))
  {
    hide Split;
    if |parts| == 1 {
      WordsEventsBegin(cfg, Fields(parts[0]));
      assert PartsEvents(cfg, parts[..0]) == [];
    } else {
      PartsEventsBegin(cfg, parts[..|parts| - 1]);
    }
  }

  lemma {:induction false} WordsEventsBegin(cfg: Config, words: seq<string>)
    requires cfg.Valid() && words != []
    ensures WordsEvents(cfg, words) != [] && !WordsEvents(cfg, words)[0].LineEnds?
  {
    if |words| == 1 {
      PiecesOfWord(words[0], cfg.MaxRunes());
    } else {
      WordsEventsBegin(cfg, words[..|words| - 1]);
    }
  }

  lemma TextBegins(cfg: Config, s: string)
    requires cfg.Valid() && s != "" && Trimmed(s)
    ensures BeginsWithText(PartsEvents(cfg, Split(LineEnd, s)))
  {
    FieldsOfInk(s[..Run(LineEnd, s)]);
    PartsEventsBegin(cfg, Split(LineEnd, s));
  }

  lemma EventsOfText(cfg: Config, text: string)
    requires cfg.Valid()
    ensures var events := PartsEvents(cfg, Split(LineEnd, Trim(text)));
            && AllSound(cfg, events) && PiecesTogether(events) && (Trim(text) != "" ==> BeginsWithText(events))
            && Texts(events) == Expanded(cfg, Fields(text))
  {
    hide Split, Trim, Texts, PartsEvents, Expanded, AllSound, PiecesTogether, BeginsWithText;
    if Trim(text) != "" {
      TrimTrims(text);
      TextBegins(cfg, Trim(text));
    }
    var parts := Split(LineEnd, Trim(text));
    PartsEventsSound(cfg, parts);
    PartsEventsClosed(cfg, parts);
    TextsOfParts(cfg, parts);
    FieldsByLine(Trim(text));
    FieldsOfTrim(text);
  }

  lemma BlocksGood(cfg: Config, text: string)
    requires cfg.Valid()
    ensures AllGood(cfg, Blocks(cfg, text))
    ensures AllTexts(Blocks(cfg, text)) == Expanded(cfg, Fields(text))
  {
    hide Split, Trim, Texts, PartsEvents, Expanded, AllSound, PiecesTogether, BeginsWithText, Inv, AllGood, Raw, Feed, Flush;
    if Trim(text) == "" {
      NoText(cfg, text);
    } else {
      var events := PartsEvents(cfg, Split(LineEnd, Trim(text)));
      EventsOfText(cfg, text);
      FeedKeeps(cfg, events);
      FinishKeeps(cfg, events, Feed(cfg, events));
    }
  }

  lemma NoText(cfg: Config, text: string)
    requires cfg.Valid()
    ensures Trim(text) == "" <==> Fields(text) == []
    ensures AllGood(cfg, []) && AllTexts([]) == Expanded(cfg, [])
  {
    FieldsOfTrim(text);
    TrimTrims(text);
    if Trim(text) != "" {
      FieldsOfInk(Trim(text));
    }
  }

  /** What each block holds beyond the overlap. */
  function FreshTexts(blocks: seq<Block>): seq<seq<string>> {
    seq(|blocks|, k requires 0 <= k < |blocks| => Texts(blocks[k].events))
  }

  /** The k-th chunk opens with a whole word, not with a piece of an over-long one. */
  predicate OpensWithWord(cfg: Config, text: string, k: nat)
    requires cfg.Valid() && k < |Chunks(cfg, text)|
  {
    var events := Blocks(cfg, text)[k].events;
    events != [] && events[0].Word?
  }

  lemma {:induction false} AllTextsIsFlat(blocks: seq<Block>)
    ensures AllTexts(blocks) == Flatten(FreshTexts(blocks))
  {
    if blocks != [] {
      var n := |blocks| - 1;
      AllTextsIsFlat(blocks[..n]);
      var own := Texts(blocks[n].events);
      assert FreshTexts(blocks) == FreshTexts(blocks[..n]) + [own];
      FlattenAppend(FreshTexts(blocks[..n]), [own]);
      assert [own][1..] == [];
    }
  }

  /** Chunking loses and reorders nothing: what the chunks hold beyond the overlaps, put
      together, is the words of the text with the over-long ones cut into pieces. */
  lemma ChunksConserveWords(cfg: Config, text: string)
    requires cfg.Valid()
    ensures |FreshTexts(Blocks(cfg, text))| == |Chunks(cfg, text)|
    ensures Flatten(FreshTexts(Blocks(cfg, text))) == Expanded(cfg, Fields(text))
  {
    hide Split, Trim, Texts, Raw, Blocks, Expanded, Bounded, Fits, Forced, AllTexts;
    BlocksGood(cfg, text);
    AllTextsIsFlat(Blocks(cfg, text));
  }

  /** The words and pieces a chunk holds beyond the overlap. */
  function Own(cfg: Config, text: string, k: nat): seq<string>
    requires cfg.Valid() && k < |Chunks(cfg, text)|
  {
    FreshTexts(Blocks(cfg, text))[k]
  }

  /** The words the k-th chunk takes over: those of the tail of the previous chunk when it opens
      with a whole word, and none otherwise. */
  function Overlapping(cfg: Config, text: string, k: nat): seq<string>
    requires cfg.Valid() && k < |Chunks(cfg, text)|
  {
    if k > 0 && OpensWithWord(cfg, text, k)
    then Fields(TailTokens(cfg, Chunks(cfg, text)[k - 1].content, cfg.overlap)) else []
  }

  /** A chunk is what it takes over and then words of its own, whatever the encoder; without one
      the overlap is exactly the last words of the previous chunk. */
  lemma ChunkWords(cfg: Config, text: string, k: nat)
    requires cfg.Valid() && k < |Chunks(cfg, text)|
    ensures var out := Chunks(cfg, text);
            var own := FreshTexts(Blocks(cfg, text))[k];
            && out[k].index == k
            && own != []
            && Fields(out[k].content) == Overlapping(cfg, text, k) + own
            && (cfg.CutsAtWords() && k > 0 && OpensWithWord(cfg, text, k) ==>
                  Overlapping(cfg, text, k) == Last(Fields(out[k - 1].content), cfg.overlap))
  {
    hide Split, Trim, Texts, Raw, Blocks, Expanded, Bounded, Fits, Forced, TailTokens, IsSpace, AllTexts, Last;
    BlocksGood(cfg, text);
    BlockWords(cfg, Blocks(cfg, text), k);
  }

  /** The overlap is what an encoder makes of the last tokens of the previous chunk, or its last
      words; all of it if it has no more than that. */
  lemma OverlapIsTail(cfg: Config, text: string, k: nat)
    requires cfg.Valid() && k < |Chunks(cfg, text)|
    ensures k == 0 || !OpensWithWord(cfg, text, k) || cfg.overlap == 0 ==> Overlapping(cfg, text, k) == []
    ensures k > 0 && OpensWithWord(cfg, text, k) && cfg.overlap > 0 ==>
              var prev := Chunks(cfg, text)[k - 1].content;
              Overlapping(cfg, text, k) ==
                match cfg.encoder
                case Some(codec) =>
                  var ids := codec.encode(prev);
                  if |ids| <= cfg.overlap then Fields(prev) else Fields(codec.decode(ids[|ids| - cfg.overlap..]))
                case None =>
                  var words := Fields(prev);
                  if |words| <= cfg.overlap then words else words[|words| - cfg.overlap..]
  {
    hide Split, Trim, Texts, Raw, Blocks, IsSpace, Content, TailTokens, AllGood;
    NoFields();
    if k > 0 && OpensWithWord(cfg, text, k) {
      BlocksGood(cfg, text);
      GoodAt(cfg, Blocks(cfg, text), k - 1);
      InkOfPrev(cfg, Blocks(cfg, text)[..k]) by { GoodAt(cfg, Blocks(cfg, text), k); }
      TailIs(cfg, Chunks(cfg, text)[k - 1].content);
    }
  }

  lemma TailIs(cfg: Config, s: string)
    requires s != "" && Trimmed(s)
    ensures cfg.overlap == 0 ==> TailTokens(cfg, s, cfg.overlap) == ""
    ensures cfg.overlap > 0 ==>
              Fields(TailTokens(cfg, s, cfg.overlap)) ==
                match cfg.encoder
                case Some(codec) =>
                  var ids := codec.encode(s);
                  if |ids| <= cfg.overlap then Fields(s) else Fields(codec.decode(ids[|ids| - cfg.overlap..]))
                case None =>
                  var words := Fields(s);
                  if |words| <= cfg.overlap then words else words[|words| - cfg.overlap..]
  {
    hide Split, IsSpace;
    FieldsOfSpaced(s);
    if cfg.overlap > 0 {
      match cfg.encoder {
        case Some(codec) =>
          var ids := codec.encode(s);
          if |ids| > cfg.overlap {
            FieldsOfSpaced(codec.decode(ids[|ids| - cfg.overlap..]));
          }
        case None =>
          CarryWords(cfg, s);
      }
    }
  }

  lemma FieldsOfSpaced(s: string)
    ensures Fields(s + " ") == Fields(s)
  {
    SplitOfConcat(Space, s, " ");
    assert " "[1..] == "";
  }

  lemma BlockWords(cfg: Config, blocks: seq<Block>, k: nat)
    requires cfg.Valid() && AllGood(cfg, blocks) && k < |blocks|
    ensures Texts(blocks[k].events) != []
    ensures var carried := k > 0 && blocks[k].events != [] && blocks[k].events[0].Word?;
            && Fields(Content(blocks[k])) ==
                 (if carried then Fields(TailTokens(cfg, Content(blocks[k - 1]), cfg.overlap)) else [])
                 + Texts(blocks[k].events)
            && (cfg.CutsAtWords() && carried ==>
                  Fields(TailTokens(cfg, Content(blocks[k - 1]), cfg.overlap))
                  == Last(Fields(Content(blocks[k - 1])), cfg.overlap))
  {
    hide Split, Trim, Texts, Raw, Bounded, Fits, TailTokens, IsSpace;
    var b := blocks[k];
    assert Good(cfg, blocks[..k], b) && Content(b) != "";
    FieldsOfContent(cfg, b);
    NoFields();
    if k > 0 {
      var prev := blocks[k - 1];
      assert blocks[..k][k - 1] == prev;
      TrimTrims(Raw(prev));
      CarryWords(cfg, Content(prev));
      TextsNonEmpty(b.events);
      NoTail(cfg, Content(prev));
    }
  }

  lemma NoTail(cfg: Config, s: string)
    ensures cfg.overlap == 0 ==> TailTokens(cfg, s, cfg.overlap) == ""
  {
  }

  /** Every chunk is a non-empty trimmed text. Whatever the encoder, it is longer than the limit
      by no more than the overlap it takes over; and when the overlap is cut at words, its size is
      bounded by the configuration alone. */
  lemma ChunkSizes(cfg: Config, text: string, k: nat)
    requires cfg.Valid() && k < |Chunks(cfg, text)|
    ensures var out := Chunks(cfg, text);
            var c := out[k];
            && c.content != "" && Trimmed(c.content)
            && c.tokenCount == (match cfg.encoder case Some(codec) => |codec.encode(c.content)| case None => |Fields(c.content)|)
            && |c.content| <= 5 * cfg.maxTokens + (if k > 0 && OpensWithWord(cfg, text, k)
                                                   then |TailTokens(cfg, out[k - 1].content, cfg.overlap)| else 0)
            && (cfg.CutsAtWords() ==> |c.content| <= (cfg.overlap + 1) * (5 * cfg.maxTokens + 1) - 1)
            && (cfg.encoder.None? ==> c.tokenCount <= Max(cfg.maxTokens - 1, cfg.overlap + 1))
  {
    hide Split, Trim, Texts, Raw, Blocks, TailTokens, IsSpace, AllGood, Content;
    BlocksGood(cfg, text);
    BlockSizes(cfg, Blocks(cfg, text), k);
  }

  lemma BlockSizes(cfg: Config, blocks: seq<Block>, k: nat)
    requires cfg.Valid() && AllGood(cfg, blocks) && k < |blocks|
    ensures var c := Content(blocks[k]);
            && c != "" && Trimmed(c)
            && |c| <= 5 * cfg.maxTokens + (if k > 0 && blocks[k].events != [] && blocks[k].events[0].Word?
                                           then |TailTokens(cfg, Content(blocks[k - 1]), cfg.overlap)| else 0)
            && (cfg.CutsAtWords() ==> |c| <= (cfg.overlap + 1) * (5 * cfg.maxTokens + 1) - 1)
            && (cfg.encoder.None? ==> |Fields(c)| <= Max(cfg.maxTokens - 1, cfg.overlap + 1))
  {
    hide Split, Trim, Texts, Raw, TailTokens, IsSpace, Fits, Forced, Sized;
    var b := blocks[k];
    assert Good(cfg, blocks[..k], b) && Content(b) != "";
    TrimTrims(Raw(b));
    if k > 0 {
      assert blocks[..k][k - 1] == blocks[k - 1];
      NoTail(cfg, Content(blocks[k - 1]));
    }
    if cfg.CutsAtWords() {
      SizedIsBounded(cfg, b);
    }
  }

  lemma SizedIsBounded(cfg: Config, b: Block)
    requires cfg.Valid() && Sized(cfg, b) && Content(b) != ""
    ensures |Content(b)| <= (cfg.overlap + 1) * (5 * cfg.maxTokens + 1) - 1
    ensures cfg.encoder.None? ==> |Fields(Content(b))| <= Max(cfg.maxTokens - 1, cfg.overlap + 1)
  {
    hide Content, Split;
    RoomMonotone(cfg, if |Content(b)| <= cfg.MaxRunes() then 1 else |Fields(Content(b))|, cfg.overlap + 1);
  }

  lemma RoomMonotone(cfg: Config, m: nat, n: nat)
    requires m <= n
    ensures Room(cfg, 1) == cfg.MaxRunes() + 1
    ensures Room(cfg, m) <= Room(cfg, n) == n * (5 * cfg.maxTokens + 1)
  {
    assert Room(cfg, n) == Room(cfg, m) + (n - m) * (cfg.MaxRunes() + 1);
  }

  /** Chunks are cut exactly where they must be: a whole word opens a new chunk only when it
      no longer fits behind the buffered text of the previous one, whatever is not first in
      its chunk did fit, and every piece of an over-long word opens a chunk of its own that,
      but for the last piece, nothing follows. */
  lemma CutsAreForced(cfg: Config, text: string, k: nat)
    requires cfg.Valid() && k < |Chunks(cfg, text)|
    ensures var b := Blocks(cfg, text)[k];
            && b.events != [] && Fits(cfg, b)
            && (forall i :: 1 <= i < |b.events| ==> !b.events[i].Piece?)
            && (b.events[0].Piece? && !b.events[0].last ==> |b.events| == 1)
            && (k > 0 && OpensWithWord(cfg, text, k) ==>
                  Full(cfg, Raw(Blocks(cfg, text)[k - 1]), b.events[0].text))
  {
    hide Split, Trim, Texts, Raw, Blocks, Bounded, TailTokens, IsSpace, Fits, Full;
    BlocksGood(cfg, text);
    assert Good(cfg, Blocks(cfg, text)[..k], Blocks(cfg, text)[k]);
    PiecesAlone(cfg, Blocks(cfg, text)[k]);
  }

  lemma PiecesAlone(cfg: Config, b: Block)
    requires b.events != [] && Fits(cfg, b)
    ensures forall i :: 1 <= i < |b.events| ==> !b.events[i].Piece?
    ensures b.events[0].Piece? && !b.events[0].last ==> |b.events| == 1
  {
    hide Full, Raw;
    if |b.events| > 1 {
      assert FitsBehind(cfg, Block(b.carry, b.events[..1]), b.events[1]);
    }
    forall i | 1 <= i < |b.events|
      ensures !b.events[i].Piece?
    {
      assert FitsBehind(cfg, Block(b.carry, b.events[..i]), b.events[i]);
    }
  }

  /* ---------- When a chunk is cut ---------- */

  /** What follows the last word in a buffer: the space behind it and the ends of lines. */
  predicate Pad(s: string) {
    s != "" && s[0] == ' ' && forall i :: 1 <= i < |s| ==> s[i] == '\n'
  }

  /** A buffer is its trimmed text between the white space it is trimmed of. */
  lemma {:induction false} Buffered(cfg: Config, b: Block) returns (lead: string, pad: string)
    requires AllSound(cfg, b.events) && b.events != [] && !b.events[0].LineEnds?
    ensures AllSpace(lead) && Pad(pad) && Raw(b) == lead + Content(b) + pad
    decreases |b.events|
  {
    hide Split, Trim, IsSpace, Raw, Content, Texts, AllSpace;
    var n := |b.events| - 1;
    var prior, e := Block(b.carry, b.events[..n]), b.events[n];
    assert Extend(prior, e) == b;
    RawOfExtend(prior, e);
    if e.LineEnds? {
      lead, pad := Buffered(cfg, prior);
      Assoc(lead + Content(prior), pad, "\n");
      pad := pad + "\n";
    } else {
      WordIsInk(cfg, e);
      lead := TrimOfInkEnd(Raw(prior) + e.text);
      pad := " ";
      Assoc(Raw(prior), e.text, " ");
    }
  }

  lemma WordIsInk(cfg: Config, e: Event)
    requires Sound(cfg, e) && !e.LineEnds?
    ensures e.text != "" && !IsSpace(e.text[0]) && !IsSpace(e.text[|e.text| - 1])
  {
  }

  lemma InkedAlone(e: Event)
    requires !e.LineEnds?
    ensures Inked([e]) == e.text + " " + ""
  {
    assert [e][..0] == [];
  }

  lemma {:induction false} InkedBegins(events: seq<Event>) returns (rest: string)
    requires events != [] && !events[0].LineEnds?
    ensures Inked(events) == events[0].text + " " + rest
  {
    var n := |events| - 1;
    if n == 0 {
      InkedAlone(events[0]);
      rest := "";
      assert events == [events[0]];
    } else {
      hide Ink;
      var start := InkedBegins(events[..n]);
      Assoc(events[0].text + " ", start, Ink(events[n]));
      rest := start + Ink(events[n]);
    }
  }

  /** A buffer does not begin with white space where the overlap is cut at words. */
  lemma RawBegins(cfg: Config, before: seq<Block>, b: Block)
    requires Good(cfg, before, b) && AllGood(cfg, before) && cfg.CutsAtWords()
    ensures Raw(b) != "" && !IsSpace(Raw(b)[0])
  {
    hide Split, Trim, IsSpace, Texts, Bounded, Fits, Forced, TailTokens, Content, AllGood;
    var rest := InkedBegins(b.events);
    WordIsInk(cfg, b.events[0]);
    if b.carry != "" {
      var prev := before[|before| - 1];
      InkOfPrev(cfg, before);
      CarryBegins(cfg, Content(prev));
    }
  }

  lemma InkOfPrev(cfg: Config, before: seq<Block>)
    requires AllGood(cfg, before) && before != []
    ensures var c := Content(before[|before| - 1]); c != "" && Trimmed(c)
  {
    hide Trim, Good, Raw;
    TrimTrims(Raw(before[|before| - 1]));
  }

  lemma CarryBegins(cfg: Config, s: string)
    requires cfg.CutsAtWords() && cfg.overlap > 0 && s != "" && Trimmed(s)
    ensures var tail := TailTokens(cfg, s, cfg.overlap); tail != "" && !IsSpace(tail[0])
  {
    hide IsSpace;
    if |Fields(s)| > cfg.overlap {
      SplitGivesFields(Space, s);
      JoinTrimmed(Last(Fields(s), cfg.overlap));
    }
  }

  /** Why the k-th chunk was opened by a word: behind the buffered text of the previous chunk, which
      is its content, the space behind the last word and the ends of lines, it would have made more
      than five runes for every allowed token, or as many tokens as are allowed. */
  lemma ChunkCuts(cfg: Config, text: string, k: nat) returns (lead: string, pad: string, w: string)
    requires cfg.Valid() && 0 < k < |Chunks(cfg, text)| && OpensWithWord(cfg, text, k)
    ensures Own(cfg, text, k) != [] && w == Own(cfg, text, k)[0]
    ensures AllSpace(lead) && Pad(pad) && (cfg.CutsAtWords() ==> lead == "")
    ensures var out := Chunks(cfg, text);
            var buffer := lead + out[k - 1].content + pad;
            || |buffer| + |w| > 5 * cfg.maxTokens
            || match cfg.encoder
               case Some(codec) => |codec.encode(buffer + w)| >= cfg.maxTokens
               case None => |Fields(out[k - 1].content)| + 1 >= cfg.maxTokens
  {
    hide Split, Trim, Texts, Raw, Blocks, IsSpace, AllGood, Content, Full, Pad, Own, Chunks, OpensWithWord, AllSpace;
    BlocksGood(cfg, text);
    ChunkIsBlock(cfg, text, k - 1);
    ChunkIsBlock(cfg, text, k);
    lead, pad, w := BlockCuts(cfg, Blocks(cfg, text), k);
  }

  lemma ChunkIsBlock(cfg: Config, text: string, k: nat)
    requires cfg.Valid() && k < |Chunks(cfg, text)|
    ensures |Chunks(cfg, text)| == |Blocks(cfg, text)|
    ensures Chunks(cfg, text)[k].content == Content(Blocks(cfg, text)[k])
    ensures Own(cfg, text, k) == Texts(Blocks(cfg, text)[k].events)
    ensures var events := Blocks(cfg, text)[k].events;
            OpensWithWord(cfg, text, k) <==> events != [] && events[0].Word?
  {
    hide Blocks, Content, Texts, CountTokens;
  }

  lemma BlockCuts(cfg: Config, blocks: seq<Block>, k: nat) returns (lead: string, pad: string, w: string)
    requires cfg.Valid() && AllGood(cfg, blocks) && 0 < k < |blocks|
    requires blocks[k].events != [] && blocks[k].events[0].Word?
    ensures Texts(blocks[k].events) != [] && w == Texts(blocks[k].events)[0]
    ensures AllSpace(lead) && Pad(pad) && (cfg.CutsAtWords() ==> lead == "")
    ensures var content := Content(blocks[k - 1]);
            var buffer := lead + content + pad;
            || |buffer| + |w| > 5 * cfg.maxTokens
            || match cfg.encoder
               case Some(codec) => |codec.encode(buffer + w)| >= cfg.maxTokens
               case None => |Fields(content)| + 1 >= cfg.maxTokens
  {
    hide Split, Trim, Texts, Raw, IsSpace, AllGood, Content, Full, Pad, Bounded, Fits;
    GoodAt(cfg, blocks, k - 1);
    GoodAt(cfg, blocks, k);
    var prev := blocks[k - 1];
    assert blocks[..k][k - 1] == prev;
    lead, pad := Buffered(cfg, prev);
    TextsBegin(blocks[k].events);
    w := blocks[k].events[0].text;
    if cfg.CutsAtWords() {
      RawBegins(cfg, blocks[..k - 1], prev);
      BlankFront(Raw(prev), lead, Content(prev) + pad);
      Assoc(lead, Content(prev), pad);
    }
    FieldsOfRaw(cfg, prev);
    FieldsOfContent(cfg, prev);
    FullSays(cfg, Raw(prev), w);
  }

  lemma GoodAt(cfg: Config, blocks: seq<Block>, k: nat)
    requires AllGood(cfg, blocks) && k < |blocks|
    ensures Good(cfg, blocks[..k], blocks[k]) && AllGood(cfg, blocks[..k])
  {
    hide Good, Content;
    forall i | 0 <= i < k
      ensures Good(cfg, blocks[..k][..i], blocks[..k][i]) && Content(blocks[..k][i]) != ""
    {
      assert blocks[..k][..i] == blocks[..i];
    }
  }

  lemma BlankFront(s: string, lead: string, rest: string)
    requires s == lead + rest && AllSpace(lead) && s != "" && !IsSpace(s[0])
    ensures lead == ""
  {
    hide IsSpace;
  }

  lemma {:induction false} TextsBegin(events: seq<Event>)
    requires events != [] && !events[0].LineEnds?
    ensures Texts(events) != [] && Texts(events)[0] == events[0].text
  {
    if |events| > 1 {
      TextsBegin(events[..|events| - 1]);
    }
  }

  lemma FullSays(cfg: Config, raw: string, w: string)
    requires Open(raw) && IsField(Space, w)
    ensures Full(cfg, raw, w) <==>
            || |raw| + |w| > 5 * cfg.maxTokens
            || match cfg.encoder
               case Some(codec) => |codec.encode(raw + w)| >= cfg.maxTokens
               case None => |Fields(raw)| + 1 >= cfg.maxTokens
  {
    hide IsSpace;
    SplitOfConcat(Space, raw, w);
    SplitOfField(Space, w);
  }

  /** Why the n-th word of its own was written into a chunk that was already begun: it fitted both
      limits behind what the buffer held. */
  lemma ChunkFits(cfg: Config, text: string, k: nat, n: nat) returns (buffer: string)
    requires cfg.Valid() && k < |Chunks(cfg, text)| && 0 < n < |Own(cfg, text, k)|
    ensures var own := Own(cfg, text, k);
            && Fields(buffer) == Overlapping(cfg, text, k) + own[..n]
            && |buffer + own[n]| <= 5 * cfg.maxTokens
            && match cfg.encoder
               case Some(codec) => |codec.encode(buffer + own[n])| < cfg.maxTokens
               case None => |Fields(buffer + own[n])| < cfg.maxTokens
  {
    hide Split, Trim, Texts, Raw, Blocks, IsSpace, AllGood, Content, Full, TailTokens;
    BlocksGood(cfg, text);
    buffer := BlockFits(cfg, Blocks(cfg, text), k, n);
  }

  lemma BlockFits(cfg: Config, blocks: seq<Block>, k: nat, n: nat) returns (buffer: string)
    requires cfg.Valid() && AllGood(cfg, blocks) && k < |blocks| && 0 < n < |Texts(blocks[k].events)|
    ensures var own := Texts(blocks[k].events);
            var carried := k > 0 && blocks[k].events != [] && blocks[k].events[0].Word?;
            && Fields(buffer) ==
                 (if carried then Fields(TailTokens(cfg, Content(blocks[k - 1]), cfg.overlap)) else []) + own[..n]
            && |buffer + own[n]| <= 5 * cfg.maxTokens
            && match cfg.encoder
               case Some(codec) => |codec.encode(buffer + own[n])| < cfg.maxTokens
               case None => |Fields(buffer + own[n])| < cfg.maxTokens
  {
    hide Split, Trim, Texts, Raw, IsSpace, AllGood, Content, Full, Bounded, TailTokens;
    GoodAt(cfg, blocks, k);
    var b := blocks[k];
    var i := EventOf(b.events, n);
    var front := Block(b.carry, b.events[..i]);
    assert FitsBehind(cfg, front, b.events[i]);
    assert Sound(cfg, b.events[i]);
    buffer := Raw(front);
    FieldsOfRaw(cfg, front);
    FullSays(cfg, buffer, b.events[i].text);
    FieldsBehind(buffer, b.events[i].text);
    BlockWords(cfg, blocks, k);
    FieldsOfContent(cfg, b);
    var carried := k > 0 && b.events[0].Word?;
    SameTail(Fields(b.carry),
             if carried then Fields(TailTokens(cfg, Content(blocks[k - 1]), cfg.overlap)) else [],
             Texts(b.events));
  }

  lemma SameTail<T>(a: seq<T>, b: seq<T>, c: seq<T>)
    requires a + c == b + c
    ensures a == b
  {
    assert |a| == |b|;
    assert a == (a + c)[..|a|];
    assert b == (b + c)[..|b|];
  }

  lemma FieldsBehind(raw: string, w: string)
    requires Open(raw) && IsField(Space, w)
    ensures |Fields(raw + w)| == |Fields(raw)| + 1
  {
    hide IsSpace;
    SplitOfConcat(Space, raw, w);
    SplitOfField(Space, w);
  }

  lemma {:induction false} EventOf(events: seq<Event>, n: nat) returns (i: nat)
    requires n < |Texts(events)|
    ensures i < |events| && !events[i].LineEnds? && events[i].text == Texts(events)[n]
    ensures Texts(events[..i]) == Texts(events)[..n]
    ensures n > 0 ==> i > 0
  {
    var m := |events| - 1;
    if n < |Texts(events[..m])| {
      i := EventOf(events[..m], n);
      assert events[..m][..i] == events[..i];
    } else {
      i := m;
    }
  }

  /** There are no chunks only when there are no words. */
  lemma ChunksOfBlankText(cfg: Config, text: string)
    requires cfg.Valid()
    ensures Chunks(cfg, text) == [] <==> Fields(text) == []
  {
    hide Split, Trim, Texts;
    BlocksGood(cfg, text);
    NoText(cfg, text);
    if Fields(text) != [] {
      var w := Fields(text)[|Fields(text)| - 1];
      PiecesOfWord(w, cfg.MaxRunes());
      assert Expanded(cfg, Fields(text)) != [];
    }
  }

  /* ---------- When a text is not cut at all ---------- */

  /** The lines of a text as they would stand in one buffer: single spaces between the words, and
      a space and a line end behind the last one. */
  function Laid(lines: seq<string>): string {
    if lines == [] then ""
    else
      var words := Fields(lines[|lines| - 1]);
      Laid(lines[..|lines| - 1]) + (if words == [] then "" else Join(words, " ") + " ") + "\n"
  }

  function Whole(text: string): string {
    Trim(Laid(Split(LineEnd, Trim(text))))
  }

  ghost predicate NoneOverLong(cfg: Config, words: seq<string>) {
    forall k :: 0 <= k < |words| ==> |words[k]| <= cfg.MaxRunes()
  }

  ghost predicate NoPieces(events: seq<Event>) {
    forall k :: 0 <= k < |events| ==> !events[k].Piece?
  }

  lemma {:induction false} InkedAppend(a: seq<Event>, b: seq<Event>)
    ensures Inked(a + b) == Inked(a) + Inked(b)
  {
    hide Ink;
    if b == [] {
      assert a + b == a;
    } else {
      assert (a + b)[..|a + b| - 1] == a + b[..|b| - 1];
      InkedAppend(a, b[..|b| - 1]);
      Assoc(Inked(a), Inked(b[..|b| - 1]), Ink(b[|b| - 1]));
    }
  }

  lemma {:induction false} InkedWords(cfg: Config, words: seq<string>)
    requires cfg.Valid() && NoneOverLong(cfg, words)
    ensures NoPieces(WordsEvents(cfg, words))
    ensures Inked(WordsEvents(cfg, words)) == if words == [] then "" else Join(words, " ") + " "
  {
    hide Join, Inked;
    if words == [] {
      InkedNothing();
    } else {
      var prior, w := words[..|words| - 1], words[|words| - 1];
      InkedWords(cfg, prior);
      InkedWrite(WordsEvents(cfg, prior), Word(w));
      JoinedWrite(prior, w);
      assert words == prior + [w];
    }
  }

  lemma InkedNothing()
    ensures Inked([]) == ""
  {
  }

  lemma InkedWrite(events: seq<Event>, e: Event)
    ensures Inked(events + [e]) == Inked(events) + Ink(e)
  {
    assert (events + [e])[..|events|] == events;
  }

  lemma JoinedWrite(words: seq<string>, w: string)
    ensures (if words == [] then "" else Join(words, " ") + " ") + (w + " ") == Join(words + [w], " ") + " "
  {
    if words != [] {
      JoinAppend(words, w, " ");
      Assoc(Join(words, " ") + " ", w, " ");
    }
  }

  lemma {:induction false} InkedParts(cfg: Config, parts: seq<string>)
    requires cfg.Valid() && NoneOverLong(cfg, Flatten(FieldsOfAll(parts)))
    ensures NoPieces(PartsEvents(cfg, parts))
    ensures Inked(PartsEvents(cfg, parts)) == Laid(parts)
  {
    hide Split, Join, NoneOverLong, Flatten, FieldsOfAll, WordsEvents, Inked, NoPieces;
    if parts == [] {
      InkedNothing();
      NoneArePieces([], []);
    } else {
      var prior, words := parts[..|parts| - 1], Fields(parts[|parts| - 1]);
      LastOfAll(parts);
      FrontNotOverLong(cfg, Flatten(FieldsOfAll(prior)), words);
      InkedParts(cfg, prior);
      InkedWords(cfg, words);
      InkedAppend(PartsEvents(cfg, prior), WordsEvents(cfg, words));
      NoneArePieces(PartsEvents(cfg, prior), WordsEvents(cfg, words));
      InkedWrite(PartsEvents(cfg, prior) + WordsEvents(cfg, words), LineEnds);
    }
  }

  lemma NoneArePieces(a: seq<Event>, b: seq<Event>)
    ensures NoPieces([])
    ensures NoPieces(a) && NoPieces(b) ==> NoPieces(a + b + [LineEnds])
  {
  }

  lemma LastOfAll(parts: seq<string>)
    requires parts != []
    ensures var n := |parts| - 1;
            Flatten(FieldsOfAll(parts)) == Flatten(FieldsOfAll(parts[..n])) + Fields(parts[n])
  {
    hide Split;
    var n := |parts| - 1;
    assert FieldsOfAll(parts) == FieldsOfAll(parts[..n]) + [Fields(parts[n])];
    FlattenAppend(FieldsOfAll(parts[..n]), [Fields(parts[n])]);
    assert [Fields(parts[n])][1..] == [];
  }

  lemma FrontNotOverLong(cfg: Config, a: seq<string>, b: seq<string>)
    requires NoneOverLong(cfg, a + b)
    ensures NoneOverLong(cfg, a) && NoneOverLong(cfg, b)
  {
    forall k | 0 <= k < |a|
      ensures |a[k]| <= cfg.MaxRunes()
    {
      assert (a + b)[k] == a[k];
    }
    forall k | 0 <= k < |b|
      ensures |b[k]| <= cfg.MaxRunes()
    {
      assert (a + b)[|a| + k] == b[k];
    }
  }

  /** Every word but the first fits behind all that was written before. */
  ghost predicate AllFit(cfg: Config, events: seq<Event>) {
    forall i :: 1 <= i < |events| ==> FitsAt(cfg, events, i)
  }

  ghost predicate FitsAt(cfg: Config, events: seq<Event>, i: nat)
    requires i < |events|
  {
    events[i].Word? ==> !Full(cfg, Inked(events[..i]), events[i].text)
  }

  lemma AllFitExtends(cfg: Config, events: seq<Event>, e: Event)
    ensures AllFit(cfg, events + [e]) <==>
              AllFit(cfg, events) && (events != [] && e.Word? ==> !Full(cfg, Inked(events), e.text))
  {
    hide Full;
    var x := events + [e];
    assert x[..|events|] == events;
    assert forall i :: 0 <= i < |events| ==> x[i] == events[i] && x[..i] == events[..i];
    if AllFit(cfg, x) {
      forall i | 1 <= i < |events|
        ensures FitsAt(cfg, events, i)
      {
        assert FitsAt(cfg, x, i);
      }
      assert events != [] ==> FitsAt(cfg, x, |events|);
    } else {
      var i :| 1 <= i < |x| && !FitsAt(cfg, x, i);
      assert i < |events| ==> !FitsAt(cfg, events, i);
    }
  }

  /** Without over-long words the first chunk stays open exactly as long as everything fits. */
  lemma {:induction false} FeedUncut(cfg: Config, events: seq<Event>)
    requires cfg.Valid() && AllSound(cfg, events) && NoPieces(events) && BeginsWithText(events)
    ensures AllFit(cfg, events) ==> Feed(cfg, events) == State([], Block("", events))
    ensures !AllFit(cfg, events) ==> Feed(cfg, events).done != []
  {
    hide Step, Sound, AllFit, Full;
    if events == [] {
      NothingFits(cfg);
    } else {
      var prior, e := events[..|events| - 1], events[|events| - 1];
      assert events == prior + [e];
      FeedUncut(cfg, prior);
      AllFitExtends(cfg, prior, e);
      assert Sound(cfg, e);
      StepUncut(cfg, prior, Feed(cfg, prior), e);
    }
  }

  lemma NothingFits(cfg: Config)
    ensures AllFit(cfg, [])
  {
  }

  lemma StepUncut(cfg: Config, prior: seq<Event>, st: State, e: Event)
    requires AllSound(cfg, prior) && Sound(cfg, e) && !e.Piece? && BeginsWithText(prior + [e])
    ensures st.done != [] ==> Step(cfg, st, e).done != []
    ensures st == State([], Block("", prior)) ==>
              if prior != [] && e.Word? && Full(cfg, Inked(prior), e.text)
              then Step(cfg, st, e).done != []
              else Step(cfg, st, e) == State([], Block("", prior + [e]))
  {
    hide Trim, Inked, CountTokens, Full, Sound, TailTokens;
    if st == State([], Block("", prior)) && e.Word? {
      assert Raw(st.open) == Inked(prior) by { Unprefixed(Inked(prior)); }
      if prior == [] {
        Blank(e);
        NoCarry(cfg);
      } else {
        UnblankBlock(cfg, prior, e);
      }
    }
  }

  lemma Unprefixed(s: string)
    ensures "" + s == s
  {
  }

  lemma UnblankBlock(cfg: Config, events: seq<Event>, e: Event)
    requires AllSound(cfg, events) && events != [] && BeginsWithText(events + [e])
    ensures Content(Block("", events)) != ""
  {
    hide Sound, Texts, Content;
    assert (events + [e])[0] == events[0];
    TextsNonEmpty(events);
    FieldsOfContent(cfg, Block("", events));
  }

  /** A text without over-long words is one chunk exactly when all of it fits. */
  lemma OneChunkOfEvents(cfg: Config, text: string)
    requires cfg.Valid() && Fields(text) != [] && NoneOverLong(cfg, Fields(text))
    ensures var events := PartsEvents(cfg, Split(LineEnd, Trim(text)));
            && AllSound(cfg, events) && NoPieces(events) && BeginsWithText(events)
            && Texts(events) == Fields(text) && Inked(events) == Laid(Split(LineEnd, Trim(text)))
            && (|Chunks(cfg, text)| == 1 <==> AllFit(cfg, events))
            && (|Chunks(cfg, text)| == 1 ==> Chunks(cfg, text)[0].content == Whole(text))
  {
    hide Split, Trim, Texts, PartsEvents, Laid, AllSound, NoPieces, BeginsWithText, AllFit, Inv, Feed, PiecesTogether;
    hide NoneOverLong, Inked;
    var parts := Split(LineEnd, Trim(text));
    var events := PartsEvents(cfg, parts);
    NoText(cfg, text);
    EventsOfText(cfg, text);
    FieldsByLine(Trim(text));
    FieldsOfTrim(text);
    InkedParts(cfg, parts);
    ExpandedNone(cfg, Fields(text));
    FeedUncut(cfg, events);
    FeedKeeps(cfg, events);
    Blank(LineEnds);
    Finished(cfg, events, Feed(cfg, events));
    assert "" + Inked(events) == Inked(events) by { Unprefixed(Inked(events)); }
  }

  lemma NotOverLong(cfg: Config, w: string)
    requires NoneOverLong(cfg, [w])
    ensures |w| <= cfg.MaxRunes()
  {
    assert [w][0] == w;
  }

  lemma {:induction false} ExpandedNone(cfg: Config, words: seq<string>)
    requires cfg.Valid() && NoneOverLong(cfg, words)
    ensures Expanded(cfg, words) == words
  {
    hide NoneOverLong, Pieces;
    if words != [] {
      var prior, w := words[..|words| - 1], words[|words| - 1];
      assert words == prior + [w];
      FrontNotOverLong(cfg, prior, [w]);
      ExpandedNone(cfg, prior);
      NotOverLong(cfg, w);
    }
  }

  /** A place just behind a word. */
  predicate EndsWord(s: string, n: int) {
    0 < n <= |s| && !IsSpace(s[n - 1]) && (n < |s| ==> IsSpace(s[n]))
  }

  /** The words written into a buffer end where its words end. */
  lemma {:induction false} WordsEndThere(cfg: Config, events: seq<Event>, n: int) returns (i: nat)
    requires AllSound(cfg, events) && NoPieces(events) && EndsWord(Inked(events), n)
    ensures i < |events| && events[i].Word? && Inked(events)[..n] == Inked(events[..i]) + events[i].text
  {
    hide IsSpace, Sound, Inked;
    if events == [] {
      InkedNothing();
      assert false;
    } else {
      var m := |events| - 1;
      var prior, e := events[..m], events[m];
      assert events == prior + [e];
      InkedWrite(prior, e);
      FieldsOfRaw(cfg, Block("", prior));
      Unprefixed(Inked(prior));
      assert Sound(cfg, e);
      EndsWordBehind(cfg, Inked(prior), e, n);
      if n <= |Inked(prior)| {
        i := WordsEndThere(cfg, prior, n);
        assert prior[..i] == events[..i];
        assert Inked(events)[..n] == Inked(prior)[..n];
      } else {
        i := m;
      }
    }
  }

  lemma EndsWordBehind(cfg: Config, raw: string, e: Event, n: int)
    requires Open(raw) && Sound(cfg, e) && !e.Piece? && EndsWord(raw + Ink(e), n)
    ensures if n <= |raw| then EndsWord(raw, n) else e.Word? && (raw + Ink(e))[..n] == raw + e.text
  {
    var all := raw + Ink(e);
    if n > |raw| {
      assert e.Word? ==> forall m :: |raw| <= m < |raw| + |e.text| ==> all[m] == e.text[m - |raw|];
    } else {
      assert all[n - 1] == raw[n - 1];
      assert n < |raw| ==> all[n] == raw[n];
    }
  }

  lemma {:induction false} InkedPrefix(events: seq<Event>, i: nat)
    requires i <= |events|
    ensures Inked(events[..i]) <= Inked(events)
    decreases |events| - i
  {
    hide Inked, Ink;
    if i == |events| {
      assert events[..i] == events;
    } else {
      InkedPrefix(events, i + 1);
      InkedWrite(events[..i], events[i]);
      assert events[..i + 1] == events[..i] + [events[i]];
    }
  }

  /** Conversely a written word ends there, and it is the first one only at the very front. */
  lemma WrittenWordEnds(cfg: Config, events: seq<Event>, i: nat)
    requires AllSound(cfg, events) && NoPieces(events) && BeginsWithText(events)
    requires i < |events| && events[i].Word?
    ensures var upTo := Inked(events[..i]) + events[i].text;
            && upTo <= Inked(events) && EndsWord(Inked(events), |upTo|)
            && Open(Inked(events[..i]))
            && (|Fields(upTo)| > 1 <==> i > 0)
  {
    hide IsSpace, Split, Inked, Sound, Texts;
    var w := events[i].text;
    assert Sound(cfg, events[i]);
    InkedPrefix(events, i + 1);
    InkedWrite(events[..i], events[i]);
    assert events[..i + 1] == events[..i] + [events[i]];
    FieldsOfRaw(cfg, Block("", events[..i]));
    Unprefixed(Inked(events[..i]));
    SoundIsField(cfg, events[i]);
    FieldsBehind(Inked(events[..i]), w);
    WordIsInk(cfg, events[i]);
    EndsBehind(Inked(events), Inked(events[..i]), w);
    NoFields();
    Blank(LineEnds);
    if i > 0 {
      TextsNonEmpty(events[..i]);
    }
  }

  lemma SoundIsField(cfg: Config, e: Event)
    requires Sound(cfg, e) && !e.LineEnds?
    ensures IsField(Space, e.text)
  {
  }

  lemma EndsBehind(s: string, raw: string, w: string)
    requires raw + (w + " ") <= s && w != "" && !IsSpace(w[|w| - 1])
    ensures raw + w <= s && EndsWord(s, |raw + w|)
  {
    var t := raw + (w + " ");
    assert t[|raw| + |w|] == ' ' && t[|raw| + |w| - 1] == w[|w| - 1];
    assert s[..|t|] == t;
    assert s[..|raw + w|] == t[..|raw + w|] == raw + w;
  }

  /** A text up to the end of a word is within both limits. */
  predicate Within(cfg: Config, s: string) {
    && |s| <= 5 * cfg.maxTokens
    && match cfg.encoder
       case Some(codec) => |codec.encode(s)| < cfg.maxTokens
       case None => |Fields(s)| < cfg.maxTokens
  }

  /** A text without over-long words stays in one chunk if and only if, laid out in one buffer, it
      is within both limits up to the end of every word but the first; and then the chunk is that
      layout. */
  lemma OneChunkIff(cfg: Config, text: string)
    requires cfg.Valid() && Fields(text) != []
    requires forall k :: 0 <= k < |Fields(text)| ==> |Fields(text)[k]| <= 5 * cfg.maxTokens
    ensures var out, whole := Chunks(cfg, text), Whole(text);
            && (|out| == 1 <==> forall n :: EndsWord(whole, n) && |Fields(whole[..n])| > 1 ==> Within(cfg, whole[..n]))
            && (|out| == 1 ==> out[0].content == whole)
  {
    hide Split, Trim, Texts, PartsEvents, Laid, AllSound, NoPieces, BeginsWithText, Chunks, EndsWord, AllFit, Within, Inked;
    var events := PartsEvents(cfg, Split(LineEnd, Trim(text)));
    OneChunkOfEvents(cfg, text);
    AllFitIff(cfg, events);
    WholeIsFront(cfg, text, events);
  }

  ghost predicate WithinUpTo(cfg: Config, s: string, n: int) {
    EndsWord(s, n) && |Fields(s[..n])| > 1 ==> Within(cfg, s[..n])
  }

  lemma AllFitIff(cfg: Config, events: seq<Event>)
    requires AllSound(cfg, events) && NoPieces(events) && BeginsWithText(events)
    ensures AllFit(cfg, events) <==> forall n :: WithinUpTo(cfg, Inked(events), n)
  {
    hide Split, AllSound, NoPieces, BeginsWithText, Inked, Within, IsSpace, Full;
    var s := Inked(events);
    if AllFit(cfg, events) {
      forall n
        ensures WithinUpTo(cfg, s, n)
      {
        if EndsWord(s, n) && |Fields(s[..n])| > 1 {
          var i := WordsEndThere(cfg, events, n);
          WrittenWordEnds(cfg, events, i);
          assert FitsAt(cfg, events, i);
          WithinIffFits(cfg, events, i);
        }
      }
    } else {
      var i :| 1 <= i < |events| && !FitsAt(cfg, events, i);
      WrittenWordEnds(cfg, events, i);
      WithinIffFits(cfg, events, i);
      var upTo := Inked(events[..i]) + events[i].text;
      assert s[..|upTo|] == upTo;
      assert !WithinUpTo(cfg, s, |upTo|);
    }
  }

  lemma WithinIffFits(cfg: Config, events: seq<Event>, i: nat)
    requires AllSound(cfg, events) && i < |events| && events[i].Word? && Open(Inked(events[..i]))
    ensures Full(cfg, Inked(events[..i]), events[i].text) <==> !Within(cfg, Inked(events[..i]) + events[i].text)
  {
    hide Split, IsSpace, Inked;
    assert Sound(cfg, events[i]);
    FullSays(cfg, Inked(events[..i]), events[i].text);
    FieldsBehind(Inked(events[..i]), events[i].text);
  }

  /** Only white space is trimmed off the end of the layout. */
  lemma WholeIsFront(cfg: Config, text: string, events: seq<Event>)
    requires cfg.Valid() && Fields(text) != [] && AllSound(cfg, events) && BeginsWithText(events) && Texts(events) != []
    requires Inked(events) == Laid(Split(LineEnd, Trim(text)))
    ensures (forall n :: WithinUpTo(cfg, Inked(events), n)) <==>
            forall n :: EndsWord(Whole(text), n) && |Fields(Whole(text)[..n])| > 1 ==> Within(cfg, Whole(text)[..n])
  {
    hide Split, Trim, AllSound, Laid, Within, IsSpace, Texts, Inked, BeginsWithText;
    var s, whole := Inked(events), Whole(text);
    FrontOfEvents(cfg, events);
    forall n
      ensures EndsWord(s, n) <==> EndsWord(whole, n)
      ensures EndsWord(whole, n) ==> s[..n] == whole[..n]
    {
      EndsWordInFront(s, whole, n);
    }
    assert forall n :: WithinUpTo(cfg, s, n) <==> (EndsWord(whole, n) && |Fields(whole[..n])| > 1 ==> Within(cfg, whole[..n]));
  }

  lemma FrontOfEvents(cfg: Config, events: seq<Event>)
    requires AllSound(cfg, events) && BeginsWithText(events) && Texts(events) != []
    ensures var s, whole := Inked(events), Trim(Inked(events));
            whole <= s && whole != "" && !IsSpace(whole[|whole| - 1]) && AllSpace(s[|whole|..])
  {
    hide Split, IsSpace, Inked, Trim;
    Blank(LineEnds);
    var b := Block("", events);
    var lead, pad := Buffered(cfg, b);
    Unprefixed(Inked(events));
    var rest := InkedBegins(events);
    WordIsInk(cfg, events[0]);
    BlankFront(Inked(events), lead, Content(b) + pad) by { Assoc(lead, Content(b), pad); }
    UnblankBlock(cfg, events, LineEnds) by { assert (events + [LineEnds])[0] == events[0]; }
    TrimTrims(Raw(b));
    PaddedText(Inked(events), Content(b), pad);
  }

  lemma PaddedText(s: string, content: string, pad: string)
    requires s == "" + content + pad && Pad(pad)
    ensures content <= s && AllSpace(s[|content|..])
  {
    Unprefixed(content);
    PadIsSpace(pad);
    assert s[|content|..] == pad;
  }

  lemma PadIsSpace(pad: string)
    requires Pad(pad)
    ensures AllSpace(pad)
  {
  }

  lemma EndsWordInFront(s: string, whole: string, n: int)
    requires whole <= s && whole != "" && !IsSpace(whole[|whole| - 1]) && AllSpace(s[|whole|..])
    ensures EndsWord(s, n) <==> EndsWord(whole, n)
    ensures EndsWord(whole, n) ==> s[..n] == whole[..n]
  {
    hide IsSpace;
    var m := |whole|;
    assert forall i :: m <= i < |s| ==> s[i] == s[m..][i - m];
    assert forall i :: 0 <= i < m ==> s[i] == whole[i];
  }

  /** Where words are counted only the whole text matters. */
  lemma OneChunkOfWords(cfg: Config, text: string)
    requires cfg.Valid() && cfg.encoder.None? && Fields(text) != []
    requires forall k :: 0 <= k < |Fields(text)| ==> |Fields(text)[k]| <= 5 * cfg.maxTokens
    ensures |Chunks(cfg, text)| == 1 <==>
              |Fields(text)| == 1 || (|Whole(text)| <= 5 * cfg.maxTokens && |Fields(text)| < cfg.maxTokens)
  {
    hide Split, Trim, Chunks, Whole, IsSpace;
    var whole := Whole(text);
    OneChunkIff(cfg, text);
    FieldsOfWhole(cfg, text);
    forall n | EndsWord(whole, n)
      ensures n <= |whole| && |Fields(whole[..n])| <= |Fields(whole)|
    {
      FieldsUpTo(whole, n);
    }
    assert whole[..|whole|] == whole;
  }

  lemma FieldsUpTo(s: string, n: int)
    requires EndsWord(s, n)
    ensures n <= |s| && |Fields(s[..n])| <= |Fields(s)|
  {
    hide IsSpace;
    assert s == s[..n] + s[n..];
    SplitOfConcat(Space, s[..n], s[n..]);
  }

  lemma FieldsOfWhole(cfg: Config, text: string)
    requires cfg.Valid() && Fields(text) != []
    requires NoneOverLong(cfg, Fields(text))
    ensures Fields(Whole(text)) == Fields(text)
    ensures EndsWord(Whole(text), |Whole(text)|)
  {
    hide Split, Trim, IsSpace, Texts, Inked, AllSound, Laid, PartsEvents, Chunks, AllFit, NoPieces;
    var events := PartsEvents(cfg, Split(LineEnd, Trim(text)));
    OneChunkOfEvents(cfg, text);
    FrontOfEvents(cfg, events);
    NoFields();
    FieldsOfRaw(cfg, Block("", events));
    Unprefixed(Inked(events));
    FieldsOfTrim(Inked(events));
  }

  /** A text of one line is laid out as its words with single spaces between them. */
  lemma WholeOfLine(text: string)
    requires Fields(text) != [] && forall i :: 0 <= i < |Trim(text)| ==> Trim(text)[i] != '\n' && Trim(text)[i] != '\r'
    ensures Whole(text) == Join(Fields(text), " ")
  {
    hide Trim, IsSpace;
    var line, words := Trim(text), Fields(text);
    FieldsOfTrim(text);
    NoFields();
    SplitOfField(LineEnd, line);
    SplitGivesFields(Space, text);
    JoinTrimmed(words);
    LaidLine(line);
    TrimOfPadded(Join(words, " "), ' ');
    TrimOfPadded(Join(words, " ") + " ", '\n');
    TrimOfTrimmed(Join(words, " "));
  }

  /** Two lines are laid out with a space and a line end between them. */
  lemma WholeOfLines(a: string, c: char, b: string)
    requires c == '\n' || c == '\r'
    requires a != "" && b != "" && !IsSpace(a[0]) && !IsSpace(b[|b| - 1]) && Fields(b) != []
    requires forall i :: 0 <= i < |a| ==> a[i] != '\n' && a[i] != '\r'
    requires forall i :: 0 <= i < |b| ==> b[i] != '\n' && b[i] != '\r'
    ensures Whole(a + [c] + b) == Join(Fields(a), " ") + " \n" + Join(Fields(b), " ")
  {
    hide IsSpace, Trim, Split, Join, Laid;
    var p, q := Join(Fields(a), " "), Join(Fields(b), " ");
    TrimOfTrimmed(a + [c] + b);
    SplitTwoLines(a, c, b);
    FieldsOfInk(a);
    LaidLine(a);
    LaidLines(a, b);
    SplitGivesFields(Space, a);
    SplitGivesFields(Space, b);
    JoinTrimmed(Fields(a));
    JoinTrimmed(Fields(b));
    TrimOfLines(p, q);
  }

  lemma TrimOfLines(p: string, q: string)
    requires p != "" && q != "" && Trimmed(p) && Trimmed(q)
    ensures Trim(p + " " + "\n" + (q + " ") + "\n") == p + " \n" + q
  {
    hide IsSpace, Trim;
    var inner := p + " \n" + q;
    TrimOfPadded(inner, ' ');
    TrimOfPadded(inner + " ", '\n');
    TrimOfTrimmed(inner);
    assert p + " " + "\n" + (q + " ") + "\n" == inner + " " + "\n";
  }

  lemma SplitTwoLines(a: string, c: char, b: string)
    requires LineEnd.Splits(c) && IsField(LineEnd, a) && IsField(LineEnd, b)
    ensures Split(LineEnd, a + [c] + b) == [a, b]
  {
    Assoc(a, [c], b);
    SplitPeels(LineEnd, a, [c] + b);
    assert ([c] + b)[1..] == b;
    SplitOfField(LineEnd, b);
  }

  lemma LaidLines(a: string, b: string)
    requires Fields(b) != []
    ensures Laid([a, b]) == Laid([a]) + (Join(Fields(b), " ") + " ") + "\n"
  {
    hide Split, Join;
    assert [a, b][..1] == [a];
  }

  lemma LaidLine(line: string)
    requires Fields(line) != []
    ensures Laid([line]) == Join(Fields(line), " ") + " " + "\n"
  {
    hide Split, Join;
    assert [line][..0] == [];
    Unprefixed(Join(Fields(line), " ") + " ");
  }

  /** What is open at the end becomes the last chunk. */
  lemma Finished(cfg: Config, events: seq<Event>, st: State)
    requires cfg.Valid() && Inv(cfg, events, st) && NoPieces(events) && events != []
    ensures Raw(st.open) != "" && Flush(st).done == st.done + [st.open]
  {
    hide Raw, Texts, AllTexts, AllGood, Good, Content;
    GoodHasRunes(cfg, st.done, st.open);
    FlushKeeps(cfg, st);
  }

  /* ---------- The chunker itself ---------- */

  /** The chunker's variables stand for the state after some events. */
  ghost predicate Represents(cfg: Config, events: seq<Event>, current: string, currentRunes: nat, index: nat, out: seq<Candidate>) {
    var st := Feed(cfg, events);
    && current == Raw(st.open) && currentRunes == |current|
    && index == |st.done| && out == Emit(cfg, st.done)
  }

  class SimpleChunker {
    const maxTokens: nat
    const overlap: nat
    const encoder: Option<Codec>

    ghost function Cfg(): Config {
      Config(maxTokens, overlap, encoder)
    }

    constructor (maxTokens: int, overlap: int, encoder: Option<Codec>)
      ensures Cfg() == Config(if maxTokens <= 0 then 800 else maxTokens, if overlap < 0 then 0 else overlap, encoder)
    {
      this.maxTokens := if maxTokens <= 0 then 800 else maxTokens;
      this.overlap := if overlap < 0 then 0 else overlap;
      this.encoder := encoder;
    }

    /** Splits by lines and then by token budget. */
    method Chunk(text: string) returns (out: seq<Candidate>)
      requires Cfg().Valid()
      ensures out == Chunks(Cfg(), text)
    {
      hide Raw, Texts, Split, Trim, CountTokens, TailTokens, Feed, IsSpace, PartsEvents, WordsEvents, WordEvents;
      var trimmed := Trim(text);
      out := [];
      if trimmed == "" {
        return;
      }
      var parts := Split(LineEnd, trimmed);
      var current, currentRunes, index := "", 0, 0;
      ghost var events: seq<Event> := [];
      NoEvents(Cfg());
      for p := 0 to |parts|
        invariant events == PartsEvents(Cfg(), parts[..p])
        invariant Represents(Cfg(), events, current, currentRunes, index, out)
      {
        var words := Fields(parts[p]);
        ghost var before := events;
        for w := 0 to |words|
          invariant events == before + WordsEvents(Cfg(), words[..w])
          invariant Represents(Cfg(), events, current, currentRunes, index, out)
        {
          current, currentRunes, index, out := AddWord(words[w], current, currentRunes, index, out, events);
          events := events + WordEvents(Cfg(), words[w]);
          WordsEventsAppend(Cfg(), words, w);
        }
        assert words[..|words|] == words;
        FeedWrites(Cfg(), events, LineEnds);
        current := current + "\n";
        currentRunes := currentRunes + 1;
        events := events + [LineEnds];
        PartsEventsAppend(Cfg(), parts, p);
      }
      assert parts[..|parts|] == parts;
      BlocksOfEvents(Cfg(), text);
      if |current| > 0 {
        index, out := FlushBuffer(current, index, out, Feed(Cfg(), events));
      }
    }

    /** The body of the word loop. */
    method AddWord(word: string, current: string, currentRunes: nat, index: nat, out: seq<Candidate>, ghost events: seq<Event>)
      returns (current': string, currentRunes': nat, index': nat, out': seq<Candidate>)
      requires Cfg().Valid() && Represents(Cfg(), events, current, currentRunes, index, out)
      ensures Represents(Cfg(), events + WordEvents(Cfg(), word), current', currentRunes', index', out')
    {
      hide Raw, Texts, Split, Trim, CountTokens, TailTokens, Feed, IsSpace, Emit, Content, Pieces;
      current', currentRunes', index', out' := current, currentRunes, index, out;
      var maxRunes := maxTokens * 5;
      if |word| > maxRunes {
        var pieces := SplitLongWord(word, maxRunes);
        ghost var all := PieceEvents(pieces);
        assert events + all[..0] == events;
        for i := 0 to |pieces|
          invariant Represents(Cfg(), events + all[..i], current', currentRunes', index', out')
        {
          ghost var seen := events + all[..i];
          assert seen + [all[i]] == events + all[..i + 1];
          current', currentRunes', index', out' :=
            AddPiece(pieces[i], i == |pieces| - 1, current', currentRunes', index', out', seen);
        }
        assert all[..|pieces|] == all;
      } else {
        FeedAppend(Cfg(), events, Word(word));
        ghost var st := Feed(Cfg(), events);
        if currentRunes + |word| > maxRunes || CountTokens(Config(maxTokens, overlap, encoder), current + word) >= maxTokens {
          index', out' := FlushBuffer(current, index, out, st);
          current', currentRunes' := "", 0;
          st := Flush(st);
          LastEmitted(Cfg(), st.done);
          if overlap > 0 && |out'| > 0 {
            var tail := TailTokens(Config(maxTokens, overlap, encoder), out'[|out'| - 1].content, overlap);
            current', currentRunes' := tail, |tail|;
          }
          assert current' == Carry(Cfg(), st.done);
          st := State(st.done, Block(Carry(Cfg(), st.done), []));
          RawOfBare(current');
        }
        RawOfExtend(st.open, Word(word));
        current' := current' + word;
        current' := current' + " ";
        currentRunes' := currentRunes' + |word| + 1;
        assert current' == Raw(st.open) + Ink(Word(word));
      }
    }

    /** Writes one piece of an over-long word. */
    method AddPiece(piece: string, last: bool, current: string, currentRunes: nat, index: nat, out: seq<Candidate>, ghost events: seq<Event>)
      returns (current': string, currentRunes': nat, index': nat, out': seq<Candidate>)
      requires Cfg().Valid() && Represents(Cfg(), events, current, currentRunes, index, out)
      ensures Represents(Cfg(), events + [Piece(piece, last)], current', currentRunes', index', out')
    {
      hide Raw, Texts, Split, Trim, CountTokens, TailTokens, Feed, IsSpace;
      current', currentRunes', index', out' := current, currentRunes, index, out;
      FeedAppend(Cfg(), events, Piece(piece, last));
      ghost var st := Feed(Cfg(), events);
      if currentRunes + |piece| > maxTokens * 5 {
        index', out' := FlushBuffer(current, index, out, st);
        current', currentRunes' := "", 0;
        st := Flush(st);
        Blank(LineEnds);
      }
      RawOfExtend(st.open, Piece(piece, last));
      current' := current' + piece;
      current' := current' + " ";
      currentRunes' := currentRunes' + |piece| + 1;
      assert current' == Raw(st.open) + Ink(Piece(piece, last));
      st := Write(st, Piece(piece, last));
      if !last {
        index', out' := FlushBuffer(current', index', out', st);
        current', currentRunes' := "", 0;
        Blank(LineEnds);
      }
    }

    /** Emits the buffered text, unless it is blank. The caller resets the buffer. */
    method FlushBuffer(current: string, index: nat, out: seq<Candidate>, ghost st: State)
      returns (index': nat, out': seq<Candidate>)
      requires current == Raw(st.open) && index == |st.done| && out == Emit(Cfg(), st.done)
      ensures var f := Flush(st); index' == |f.done| && out' == Emit(Cfg(), f.done)
    {
      hide Raw, Trim, CountTokens;
      index', out' := index, out;
      var content := Trim(current);
      if content == "" {
        return;
      }
      EmitAppend(Cfg(), st.done, st.open);
      var tokenCount := CountTokens(Config(maxTokens, overlap, encoder), content);
      out' := out + [Candidate(index, content, tokenCount)];
      index' := index + 1;
    }

    /** Slices an over-long word into pieces of at most `maxRunes` runes. */
    method SplitLongWord(word: string, maxRunes: int) returns (parts: seq<string>)
      ensures parts == if maxRunes <= 0 then [word] else Pieces(word, maxRunes)
    {
      if maxRunes <= 0 || |word| <= maxRunes {
        return [word];
      }
      parts := [];
      var i := 0;
      while i < |word|
        invariant 0 <= i
        invariant i < |word| ==> parts + Pieces(word[i..], maxRunes) == Pieces(word, maxRunes)
        invariant i >= |word| ==> parts == Pieces(word, maxRunes)
      {
        var end := if i + maxRunes > |word| then |word| else i + maxRunes;
        PiecesFrom(word, i, maxRunes);
        parts := parts + [word[i..end]];
        assert end == |word| ==> word[i..end] == word[i..];
        i := i + maxRunes;
      }
    }
  }

  lemma PiecesFrom(word: string, i: nat, n: nat)
    requires n > 0 && i < |word|
    ensures Pieces(word[i..], n) ==
            if i + n >= |word| then [word[i..]] else [word[i..i + n]] + Pieces(word[i + n..], n)
  {
    if i + n < |word| {
      assert word[i..][..n] == word[i..i + n];
      assert word[i..][n..] == word[i + n..];
    }
  }

  lemma EmitAppend(cfg: Config, done: seq<Block>, b: Block)
    ensures Emit(cfg, done + [b]) ==
            Emit(cfg, done) + [Candidate(|done|, Content(b), CountTokens(cfg, Content(b)))]
  {
    hide Raw, Trim, CountTokens, Content;
  }

  lemma LastEmitted(cfg: Config, done: seq<Block>)
    ensures |Emit(cfg, done)| == |done|
    ensures done != [] ==> Emit(cfg, done)[|done| - 1].content == Content(done[|done| - 1])
  {
    hide Content, CountTokens;
  }

  lemma NoEvents(cfg: Config)
    requires cfg.Valid()
    ensures Represents(cfg, [], "", 0, 0, [])
    ensures WordsEvents(cfg, []) == [] && PartsEvents(cfg, []) == []
    ensures Chunks(cfg, "") == []
  {
  }

  lemma BlocksOfEvents(cfg: Config, text: string)
    requires cfg.Valid()
    ensures Trim(text) == "" ==> Blocks(cfg, text) == []
    ensures Trim(text) != "" ==>
              var st := Feed(cfg, PartsEvents(cfg, Split(LineEnd, Trim(text))));
              Blocks(cfg, text) == if Raw(st.open) == "" then st.done else Flush(st).done
  {
  }

  lemma RawOfBare(carry: string)
    ensures Raw(Block(carry, [])) == carry
  {
  }

  lemma FeedWrites(cfg: Config, events: seq<Event>, e: Event)
    requires e.LineEnds?
    ensures Feed(cfg, events + [e]) == Write(Feed(cfg, events), e)
    ensures Raw(Feed(cfg, events + [e]).open) == Raw(Feed(cfg, events).open) + Ink(e)
  {
    hide Raw;
    FeedAppend(cfg, events, e);
    RawOfExtend(Feed(cfg, events).open, e);
  }

  lemma WordsEventsAppend(cfg: Config, words: seq<string>, w: nat)
    requires cfg.Valid() && w < |words|
    ensures WordsEvents(cfg, words[..w + 1]) == WordsEvents(cfg, words[..w]) + WordEvents(cfg, words[w])
  {
    assert words[..w + 1][..w] == words[..w];
  }

  lemma PartsEventsAppend(cfg: Config, parts: seq<string>, p: nat)
    requires cfg.Valid() && p < |parts|
    ensures PartsEvents(cfg, parts[..p + 1]) ==
            PartsEvents(cfg, parts[..p]) + WordsEvents(cfg, Fields(parts[p])) + [LineEnds]
  {
    assert parts[..p + 1][..p] == parts[..p];
  }
}
