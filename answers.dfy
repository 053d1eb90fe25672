/**
 * A quiz question and the slot mapping of one game question: which of the
 * question's four fixed answers is shown under each public key.
 */
module Answers {
  import opened Results
  import opened Keys

  /** One of the four fixed answer positions of a question. */
  type Position = p: int | 1 <= p <= 4 witness 1

  /** The position of the right answer on every question. */
  const CorrectPosition: Position := 1

  /** A question of the question bank; it is only read here. */
  datatype Question = Question(
    text: string,
    level: int,
    answer1: string,
    answer2: string,
    answer3: string,
    answer4: string)
  {
    function Answer(p: Position): string {
      if p == 1 then answer1
      else if p == 2 then answer2
      else if p == 3 then answer3
      else answer4
    }

    /** The four answers in position order. */
    function Answers(): seq<string> {
      [answer1, answer2, answer3, answer4]
    }
  }

  /** The positions stored for keys a, b, c and d. */
  datatype SlotMapping = SlotMapping(a: Position, b: Position, c: Position, d: Position)
  {
    function At(k: Key): Position {
      match k
      case A => a
      case B => b
      case C => c
      case D => d
    }
  }

  /** No two keys share a position, so every position is held by one key. */
  predicate Bijective(m: SlotMapping) {
    forall j: Key, k: Key :: j != k ==> m.At(j) != m.At(k)
  }

  /** The first key, in display order, that the mapping puts on position p. */
  function KeyAt(m: SlotMapping, p: Position): (r: Option<Key>)
    ensures r.Some? ==> m.At(r.value) == p
    ensures r.None? <==> forall k: Key :: m.At(k) != p
    ensures r.Some? ==> forall k: Key :: Index(k) < Index(r.value) ==> m.At(k) != p
  {
    if m.a == p then Some(A)
    else if m.b == p then Some(B)
    else if m.c == p then Some(C)
    else if m.d == p then Some(D)
    else None
  }

  /**
   * The key of the right answer; a mapping that puts no key on the correct
   * position has none.
   */
  function CorrectAnswerKey(m: SlotMapping): (r: Option<Key>)
    ensures r.Some? ==> m.At(r.value) == CorrectPosition
    ensures r.None? <==> forall k: Key :: m.At(k) != CorrectPosition
  {
    KeyAt(m, CorrectPosition)
  }

  /** The answer text shown under each key. */
  function Variants(q: Question, m: SlotMapping): (r: map<Key, string>)
    ensures r.Keys == AllKeys
    ensures CorrectAnswerKey(m).Some? ==> r[CorrectAnswerKey(m).value] == q.answer1
  {
    map k | k in AllKeys :: q.Answer(m.At(k))
  }

  /** Whether the letter names the key of the right answer. */
  function AnswerCorrect(m: SlotMapping, letter: string): (r: Result<bool>)
    ensures r.Failure? <==> Parse(letter).None?
    ensures r.Failure? ==> r.error == InvalidKey
    ensures r.Success? ==> (r.value <==> m.At(Parse(letter).value) == CorrectPosition)
  {
    match Parse(letter)
    case None => Failure(InvalidKey)
    case Some(k) => Success(m.At(k) == CorrectPosition)
  }

  /** The answer texts shown under a, b, c, d, in display order. */
  function ShownAnswers(q: Question, m: SlotMapping): seq<string> {
    var v := Variants(q, m);
    [v[A], v[B], v[C], v[D]]
  }

  /** Every position of a bijective mapping is held by some key. */
  lemma BijectionIsOnto(m: SlotMapping, p: Position)
    requires Bijective(m)
    ensures KeyAt(m, p).Some?
  {
    assert m.At(A) != m.At(B) && m.At(A) != m.At(C) && m.At(A) != m.At(D);
    assert m.At(B) != m.At(C) && m.At(B) != m.At(D) && m.At(C) != m.At(D);
  }

  /** A bijective mapping always has a correct key. */
  lemma BijectionHasCorrectKey(m: SlotMapping)
    requires Bijective(m)
    ensures CorrectAnswerKey(m).Some?
  {
    BijectionIsOnto(m, CorrectPosition);
  }

  /**
   * Under a bijective mapping the answer at every position is shown, under
   * the key that holds that position.
   */
  lemma VariantsShowEveryAnswer(q: Question, m: SlotMapping, p: Position)
    requires Bijective(m)
    ensures KeyAt(m, p).Some? && Variants(q, m)[KeyAt(m, p).value] == q.Answer(p)
  {
    BijectionIsOnto(m, p);
  }

  /** How often the text x occurs once, as 0 or 1. */
  function Hit(x: string, y: string): nat {
    if x == y then 1 else 0
  }

  lemma MultisetOfFour(a: string, b: string, c: string, d: string, x: string)
    ensures multiset([a, b, c, d])[x] == Hit(x, a) + Hit(x, b) + Hit(x, c) + Hit(x, d)
  {
    assert [a, b, c, d] == [a, b, c] + [d];
    assert [a, b, c] == [a, b] + [c];
    assert [a, b] == [a] + [b];
  }

  /** Summing a per-position count over the four keys of a bijection visits each position once. */
  lemma SumOverKeys(q: Question, m: SlotMapping, x: string)
    requires Bijective(m)
    ensures Hit(x, q.Answer(m.a)) + Hit(x, q.Answer(m.b)) + Hit(x, q.Answer(m.c)) + Hit(x, q.Answer(m.d))
         == Hit(x, q.answer1) + Hit(x, q.answer2) + Hit(x, q.answer3) + Hit(x, q.answer4)
  {
    assert m.At(A) != m.At(B) && m.At(A) != m.At(C) && m.At(A) != m.At(D);
    assert m.At(B) != m.At(C) && m.At(B) != m.At(D) && m.At(C) != m.At(D);
  }

  /** The answers at the positions of a bijection are the question's answers, reordered. */
  lemma PositionsPermuteAnswers(q: Question, m: SlotMapping)
    requires Bijective(m)
    ensures multiset([q.Answer(m.a), q.Answer(m.b), q.Answer(m.c), q.Answer(m.d)]) == multiset(q.Answers())
  {
    forall x
      ensures multiset([q.Answer(m.a), q.Answer(m.b), q.Answer(m.c), q.Answer(m.d)])[x] == multiset(q.Answers())[x]
    {
      MultisetOfFour(q.Answer(m.a), q.Answer(m.b), q.Answer(m.c), q.Answer(m.d), x);
      MultisetOfFour(q.answer1, q.answer2, q.answer3, q.answer4, x);
      SumOverKeys(q, m, x);
    }
  }

  /** Under a bijective mapping the shown answers are a permutation of the question's. */
  lemma VariantsArePermutation(q: Question, m: SlotMapping)
    requires Bijective(m)
    ensures multiset(ShownAnswers(q, m)) == multiset(q.Answers())
  {
    var v := Variants(q, m);
    assert v[A] == q.Answer(m.a) && v[B] == q.Answer(m.b) && v[C] == q.Answer(m.c) && v[D] == q.Answer(m.d);
    PositionsPermuteAnswers(q, m);
  }

  /** The letter of the correct key is always judged correct. */
  lemma CorrectKeyIsJudgedCorrect(m: SlotMapping)
    requires CorrectAnswerKey(m).Some?
    ensures AnswerCorrect(m, Name(CorrectAnswerKey(m).value)) == Success(true)
  {
    ParseName(CorrectAnswerKey(m).value);
  }

  /** Under a bijective mapping exactly one letter is judged correct: that of the correct key. */
  lemma AnswerCorrectIffCorrectKey(m: SlotMapping, k: Key)
    requires Bijective(m)
    ensures AnswerCorrect(m, Name(k)) == Success(true) <==> CorrectAnswerKey(m) == Some(k)
  {
    ParseName(k);
    BijectionHasCorrectKey(m);
  }

  /** The mapping a:2, b:1, c:4, d:3 used by the tests. */
  const TestMapping := SlotMapping(2, 1, 4, 3)

  /** The invalid mapping a:2, b:2, c:4, d:3 that puts no key on position 1. */
  const BadMapping := SlotMapping(2, 2, 4, 3)

  lemma TestMappingExamples(q: Question)
    ensures Bijective(TestMapping)
    ensures Variants(q, TestMapping) == map[A := q.answer2, B := q.answer1, C := q.answer4, D := q.answer3]
    ensures AnswerCorrect(TestMapping, "b") == Success(true)
    ensures CorrectAnswerKey(TestMapping) == Some(B)
  {
    var v := Variants(q, TestMapping);
    assert v[A] == q.answer2 && v[B] == q.answer1 && v[C] == q.answer4 && v[D] == q.answer3;
  }

  lemma BadMappingExamples()
    ensures !Bijective(BadMapping)
    ensures CorrectAnswerKey(BadMapping) == None
  {
    assert BadMapping.At(A) == BadMapping.At(B);
  }
}
