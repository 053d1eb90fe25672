# GameQuestion: slot mapping, correctness and hints of one quiz question

This project models the per-game question object `GameQuestion` of a
"who wants to be a millionaire" quiz, as its RSpec behaviour file describes it.
The source of the class itself is not part of this model. Only its RSpec file
is, so every operation below follows what that file asserts. Where the file
is silent, the model fixes a rule of its own, stated under "## Left out".

- **Slot mapping** (`answers.dfy`, module `Answers`). A game question stores,
  for each public key `a`, `b`, `c`, `d` (`Keys.Key`), one of the question's
  four fixed answer positions 1..4. Position 1 holds the right answer.
  - `Variants` gives the answer text shown under each key.
  - `AnswerCorrect` judges a letter.
  - `CorrectAnswerKey` looks up the key on position 1, and answers `None`
    when the mapping puts no key there.
  - A bijective mapping always has a correct key, exactly one letter is
    judged correct, and the shown answers are a permutation of the
    question's answers.
- **Hint store** (`help.dfy`, module `Help`). The help hash maps a hint name to
  its payload: the two kept keys, the audience's votes per key, or the friend's
  message. `EligibleKeys` is `keys_to_use_in_help`. It is all four keys until a
  fifty-fifty result is stored, and the two kept keys from then on. The
  invariant `WellFormed` says each payload has its name's shape, and a
  fifty-fifty result holds exactly two keys including the correct one.
- **The game question** (`game_question.dfy`, class
  `GameQuestions.GameQuestion`). It has a `const` question and mapping, and a
  `helpHash` field. The three hint methods add one entry each
  (`AddFiftyFifty`, `AddAudienceHelp`, `AddFriendCall`). Each method keeps
  `Valid()` and every earlier entry. It adds only its own name and reports
  `HintAlreadyUsed` on a second call. The method `GameQuestions.AllHelpers` replays the
  combined-hint scenario of lines 147-178 against these contracts.

Randomness is a parameter:
- `roll: nat` is the draw that picks a key from the eligible keys in display
  order (`Keys.Sample`), for fifty-fifty's second key and for the friend's key.
- `draw: Key -> nat` gives the audience's vote counts.
- `friend: string` is the friend's name.

`Keys.SampleReachesEvery` shows the draw can pick any eligible key, so the
model does not narrow the random choice.

## Model

| member | source | states |
|---|---|---|
| Answers.Variants | spec/models/game_question_spec.rb:21-28 | the variants have exactly the keys a, b, c, d, and the correct key shows the question's first (correct) answer |
| Answers.VariantsShowEveryAnswer | spec/models/game_question_spec.rb:21-27 | under a bijective mapping, the answer at every position is shown, under the key that holds that position |
| Answers.VariantsArePermutation | spec/models/game_question_spec.rb:21-27 | under a bijective mapping, the answers shown under a, b, c, d are a permutation (as a multiset) of the question's four answers |
| Answers.TestMappingExamples | spec/models/game_question_spec.rb:12-37 | with a:2, b:1, c:4, d:3, the variants are a→answer2, b→answer1, c→answer4, d→answer3, 'b' is judged correct and the correct key is b |
| Answers.BadMappingExamples | spec/models/game_question_spec.rb:39-42 | the mapping a:2, b:2, c:4, d:3 is not a bijection and has no correct key |
| Answers.KeyAt | spec/models/game_question_spec.rb:35-42 | the key found for a position holds that position, no key before it in a..d order holds it, and no key is found exactly when no key holds it |
| Answers.CorrectAnswerKey | spec/models/game_question_spec.rb:35-42 | a returned key is mapped to position 1, and nothing is returned exactly when no key is mapped to position 1 |
| Answers.BijectionHasCorrectKey | spec/models/game_question_spec.rb:35-37 | a bijective mapping always has a correct key |
| Answers.AnswerCorrect | spec/models/game_question_spec.rb:30-33 | a letter outside a..d is InvalidKey; otherwise the letter is judged correct exactly when its key is mapped to position 1 |
| Answers.CorrectKeyIsJudgedCorrect | spec/models/game_question_spec.rb:30-37 | the letter of the correct key, when there is one, is judged correct |
| Answers.AnswerCorrectIffCorrectKey | spec/models/game_question_spec.rb:30-37 | under a bijective mapping a key's letter is judged correct if and only if it is the correct key |
| Keys.Parse | spec/models/game_question_spec.rb:30-33 | a parsed letter is the name of its key, and a string that names no key parses to nothing |
| Keys.SampleReachesEvery | spec/models/game_question_spec.rb:113-115 | every member of the eligible set is the result of some draw |
| Help.EligibleKeys | spec/models/game_question_spec.rb:113-170 | the eligible keys are all of a..d until a fifty-fifty entry is stored, then exactly its kept keys; their sizes (4, then 2) are stated by Help.EligibleKeysSize and their stickiness by Help.NarrowingIsSticky |
| Help.EmptyStoreIsWellFormed | spec/models/game_question_spec.rb:50-52 | the empty help hash satisfies the invariant, and all four keys are eligible |
| Help.EligibleKeysSize | spec/models/game_question_spec.rb:127-138 | in a well-formed store the eligible keys are 4 before fifty-fifty and 2 after it, and they always include the correct key |
| Help.NarrowingIsSticky | spec/models/game_question_spec.rb:147-170 | extending a well-formed store never widens the eligible keys, and after fifty-fifty they stay its two kept keys |
| Help.StoreOtherHint | spec/models/game_question_spec.rb:163-175 | storing an audience or friend hint keeps the invariant and every earlier entry, and leaves the eligible keys unchanged |
| Help.FiftyFiftyKeep | spec/models/game_question_spec.rb:99-111 | the fifty-fifty result has exactly 2 keys, contains the correct key and lies within the eligible keys |
| Help.FiftyFiftyCanKeepAnyOther | spec/models/game_question_spec.rb:99-111 | each eligible key other than the correct one is kept by some draw |
| Help.AudienceVotes | spec/models/game_question_spec.rb:81-93 | the votes have a count for exactly the eligible keys |
| Help.FriendPick | spec/models/game_question_spec.rb:113-125 | the friend names one of the eligible keys |
| Help.FriendCallMessage | spec/models/game_question_spec.rb:121-124 | the message starts with the friend's name, carries the phrase "считает, что это вариант" right after it, and ends with the named key's upper-case letter |
| Help.FriendCallMessageNamesKey | spec/models/game_question_spec.rb:117-125 | a friend-call message contains the phrase "считает, что это вариант", and its last letter reads back as the named key |
| GameQuestions.GameQuestion.constructor | spec/models/game_question_spec.rb:50-52 | a new game question has an empty help hash, and all four keys are eligible |
| GameQuestions.GameQuestion.AddFiftyFifty | spec/models/game_question_spec.rb:98-111 | it fails with HintAlreadyUsed on a second call and with NoCorrectAnswer when there is no correct key. Otherwise it stores 2 eligible keys including the correct key, after which exactly those 2 are eligible. Earlier entries are kept and no other name is added |
| GameQuestions.GameQuestion.AddAudienceHelp | spec/models/game_question_spec.rb:80-93 | it fails with HintAlreadyUsed on a second call. Otherwise it stores votes keyed by exactly the keys eligible at the call: all of a..d before fifty-fifty, and always the correct key. Eligibility and earlier entries are unchanged |
| GameQuestions.AllHelpers | spec/models/game_question_spec.rb:147-178 | with the mapping a:2, b:1, c:4, d:3, after fifty-fifty, a friend call and the audience, the kept keys are 2 and include b, the friend names a kept key, and the votes range over exactly the kept keys and include b |
| GameQuestions.GameQuestion.AddFriendCall | spec/models/game_question_spec.rb:117-125 | it fails with HintAlreadyUsed on a second call. Otherwise it stores a message with the fixed phrase that names a key eligible at the call. Eligibility and earlier entries are unchanged |

## Left out

- Persistence: `save`, `GameQuestion.find` and the round trip of the help hash with mixed symbol and string keys (lines 55-65). These are database storage and serialisation. The model stores hints under one canonical key type, `Help.HelpKind`.
- Arbitrary help-hash entries such as `:some_key1` (lines 55-56). The store holds only the three hint names, each with its own payload shape.
- Delegation of `text` and `level` to the question (lines 45-48). The model reads `question.text` and `question.level` directly.
- Drawing the slot mapping at random when a game reaches the question. The constructor takes the mapping as a parameter.
- Mapping values outside 1..4. They cannot be represented, because `Answers.Position` is the range 1..4.
- The probability distributions of the hints: the audience's bias toward the right answer and the friend's. Draws are parameters without probabilities.
- GameQuestions.GameQuestion.AddAudienceHelp: does not require the vote counts to sum to 100, because the behaviour file checks only which keys carry votes.
- GameQuestions.GameQuestion.AddFriendCall: the message wording is fixed as the friend's name, the phrase, then the key's upper-case letter. Friend names and any other formatting are not modelled.
- GameQuestions.GameQuestion.AddFiftyFifty: on a mapping with no correct key, the model refuses with `NoCorrectAnswer` and leaves the store unchanged. The behaviour file never tries this case.
- Second calls of a hint: the behaviour file never makes one. In the model a second call of a hint is refused with `HintAlreadyUsed` and leaves the store unchanged.
- Answers.AnswerCorrect: only the lower-case letters a..d are keys; anything else is `InvalidKey`. The behaviour file only checks 'b'. When several keys share position 1, which the behaviour file never builds, every one of them is judged correct, and `CorrectAnswerKey` returns the first in a..d order.
- The comment at line 74 shows a differently worded friend message. The model follows the phrase that lines 124, 144 and 168 assert.
