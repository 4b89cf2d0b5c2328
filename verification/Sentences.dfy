/** The fixed sentences that stand for a failure, and why they are fit for the wire, in
    packages/server/src/narrow.ts. */
module Sentences {

  const REFUSED_MESSAGE := "that question could not be answered safely"

  // Two longer sentences, by halves.
  const QUESTION_COULD_NOT := "the question could not"
  const BE_ANSWERED_NOW := "be answered right now"
  const ERROR_MESSAGE := QUESTION_COULD_NOT + " " + BE_ANSWERED_NOW
  const DATA_AVAILABLE := "the data available"
  const CANNOT_ANSWER := "cannot answer that question"
  const UNANSWERABLE_MESSAGE := DATA_AVAILABLE + " " + CANNOT_ANSWER

  predicate Letters(s: string) {
    forall i :: 0 <= i < |s| ==> 'a' <= s[i] <= 'z' || s[i] == ' '
  }

  predicate SingleBlanks(s: string) {
    forall i :: 0 < i < |s| ==> !(s[i] == ' ' && s[i - 1] == ' ')
  }

  /** A plain sentence: letters and single blanks. */
  predicate Plain(s: string) {
    0 < |s| <= 400 && Letters(s) && SingleBlanks(s) && s[0] != ' ' && s[|s| - 1] != ' '
  }

  lemma JoinIsPlain(a: string, b: string)
    requires Plain(a) && Plain(b) && |a| + |b| < 400
    ensures Plain(a + " " + b)
  {
    var s := a + " " + b;
    forall i | 0 <= i < |s| ensures ('a' <= s[i] <= 'z' || s[i] == ' ')
        && (0 < i ==> !(s[i] == ' ' && s[i - 1] == ' ')) {
      if i < |a| {
        assert s[i] == a[i];
      } else if |a| + 1 < i {
        assert s[i] == b[i - |a| - 1] && s[i - 1] == b[i - |a| - 2];
      }
    }
  }

  lemma ErrorIsPlain()
    ensures Plain(ERROR_MESSAGE)
  {
    assert Letters(QUESTION_COULD_NOT) && SingleBlanks(QUESTION_COULD_NOT);
    assert Letters(BE_ANSWERED_NOW) && SingleBlanks(BE_ANSWERED_NOW);
    JoinIsPlain(QUESTION_COULD_NOT, BE_ANSWERED_NOW);
  }

  lemma UnanswerableIsPlain()
    ensures Plain(UNANSWERABLE_MESSAGE)
  {
    assert Letters(DATA_AVAILABLE) && SingleBlanks(DATA_AVAILABLE);
    assert Letters(CANNOT_ANSWER) && SingleBlanks(CANNOT_ANSWER);
    JoinIsPlain(DATA_AVAILABLE, CANNOT_ANSWER);
  }
}
