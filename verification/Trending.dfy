/** Counters of asked questions, one for each canonical text. */
module Trending {

  import opened Text
  import opened QuestionText

  /** How often each canonical text was asked, and how it was written the first time. */
  datatype Board = Board(counts: map<string, nat>, displays: map<string, string>)

  function Count(b: Board, canonical: string): nat {
    if canonical in b.counts then b.counts[canonical] else 0
  }

  function Incremented(b: Board, canonical: string, display: string): Board {
    if canonical == "" then b
    else Board(b.counts[canonical := Count(b, canonical) + 1],
               if canonical in b.displays then b.displays else b.displays[canonical := display])
  }

  /** The board after these questions were answered. */
  function AfterAll(a: Alphabet, questions: seq<string>): Board {
    if questions == [] then Board(map[], map[])
    else
      var q := questions[|questions| - 1];
      Incremented(AfterAll(a, questions[..|questions| - 1]), Canonical(a, q), Trim(q))
  }

  /** Those of the questions that have just these words. */
  function WithWords(a: Alphabet, questions: seq<string>, words: seq<string>): seq<string> {
    if questions == [] then []
    else
      var q := questions[|questions| - 1];
      var before := WithWords(a, questions[..|questions| - 1], words);
      if Words(a, q) == words then before + [q] else before
  }

  lemma CanonicalEmptyIff(a: Alphabet, q: string)
    ensures Canonical(a, q) == "" <==> Words(a, q) == []
  {
    WordsAreFields(a, q);
    FieldsOfJoin(Words(a, q));
  }

  /** Over every run, the counter a question is under tells how many answered questions had the
      same words in the same order, and its display is the first of them as it was written. A
      question without letters or digits is not counted. */
  lemma {:induction false} CountsSameWords(a: Alphabet, questions: seq<string>, q: string)
    ensures var b := AfterAll(a, questions);
            var same := WithWords(a, questions, Words(a, q));
            var c := Canonical(a, q);
            && b.counts.Keys == b.displays.Keys
            && Count(b, c) == (if Words(a, q) == [] then 0 else |same|)
            && (c in b.displays <==> Words(a, q) != [] && same != [])
            && (c in b.displays ==> b.displays[c] == Trim(same[0]))
  {
    hide Canonical, Words, Trim;
    if questions != [] {
      var before, last := questions[..|questions| - 1], questions[|questions| - 1];
      CountsSameWords(a, before, q);
      SameQuestionIff(a, last, q);
      CanonicalEmptyIff(a, last);
    }
  }

  /** One more answered question. */
  lemma AfterOneMore(a: Alphabet, questions: seq<string>, q: string)
    requires a.Valid()
    ensures AfterAll(a, questions + [q]) == Incremented(AfterAll(a, questions), Canonical(a, Trim(q)), Trim(q))
  {
    hide Incremented, Words, Trim;
    hide Alphabet.Valid;
    assert (questions + [q])[..|questions|] == questions;
    WordsOfTrim(a, q);
  }

  class MemoryTrending {
    var trending: map<string, nat>
    var displays: map<string, string>

    constructor ()
      ensures Contents() == Board(map[], map[])
    {
      trending, displays := map[], map[];
    }

    ghost function Contents(): Board
      reads this
    {
      Board(trending, displays)
    }

    method IncrementQuery(canonical: string, display: string)
      modifies this
      ensures Contents() == Incremented(old(Contents()), canonical, display)
    {
      if canonical == "" {
        return;
      }
      var count := if canonical in trending then trending[canonical] else 0;
      trending := trending[canonical := count + 1];
      if canonical !in displays {
        displays := displays[canonical := display];
      }
    }
  }
}
