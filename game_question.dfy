/**
 * One question of a running game: the question it shows, the fixed slot
 * mapping drawn when the game reached it, and the hint store that the three
 * hints add to.
 */
module GameQuestions {
  import opened Results
  import opened Keys
  import opened Answers
  import opened Help

  class GameQuestion {
    const question: Question
    const mapping: SlotMapping
    var helpHash: HelpHash

    ghost predicate Valid()
      reads this
    {
      WellFormed(mapping, helpHash)
    }

    /** A new game question starts with an empty hint store; all four keys are eligible. */
    constructor (question: Question, mapping: SlotMapping)
      ensures this.question == question && this.mapping == mapping
      ensures helpHash == map[]
      ensures Valid()
      ensures EligibleKeys(helpHash) == AllKeys && |EligibleKeys(helpHash)| == 4
    {
      this.question := question;
      this.mapping := mapping;
      helpHash := map[];
      EmptyStoreIsWellFormed(mapping);
    }

    /**
     * Stores the fifty-fifty result: the correct key and one other eligible
     * key, picked by the draw `roll`.
     */
    method AddFiftyFifty(roll: nat) returns (outcome: Outcome)
      requires Valid()
      modifies this
      ensures Valid()
      ensures outcome == (if FiftyFifty in old(helpHash) then Fail(HintAlreadyUsed)
                          else if CorrectAnswerKey(mapping).None? then Fail(NoCorrectAnswer)
                          else Pass)
      ensures outcome.Fail? ==> helpHash == old(helpHash)
      ensures outcome.Pass? ==>
        helpHash == old(helpHash)[FiftyFifty := FiftyFiftyHint(
          FiftyFiftyKeep(old(EligibleKeys(helpHash)), CorrectAnswerKey(mapping).value, roll))]
      ensures outcome.Pass? ==>
        && FiftyFifty in helpHash && helpHash[FiftyFifty].FiftyFiftyHint?
        && var kept := helpHash[FiftyFifty].kept;
        && |kept| == 2
        && CorrectAnswerKey(mapping).value in kept
        && kept <= old(EligibleKeys(helpHash))
        && EligibleKeys(helpHash) == kept
      ensures Extends(old(helpHash), helpHash)
      ensures helpHash.Keys <= old(helpHash).Keys + {FiftyFifty}
    {
      if FiftyFifty in helpHash {
        return Fail(HintAlreadyUsed);
      }
      var correct := CorrectAnswerKey(mapping);
      if correct.None? {
        return Fail(NoCorrectAnswer);
      }
      var eligible := EligibleKeys(helpHash);
      EligibleKeysSize(mapping, helpHash);
      var kept := FiftyFiftyKeep(eligible, correct.value, roll);
      helpHash := helpHash[FiftyFifty := FiftyFiftyHint(kept)];
      outcome := Pass;
    }

    /**
     * Stores the audience's votes, one per key eligible now; `draw` stands
     * for the random counts.
     */
    method AddAudienceHelp(draw: Key -> nat) returns (outcome: Outcome)
      requires Valid()
      modifies this
      ensures Valid()
      ensures outcome == (if AudienceHelp in old(helpHash) then Fail(HintAlreadyUsed) else Pass)
      ensures outcome.Fail? ==> helpHash == old(helpHash)
      ensures outcome.Pass? ==>
        helpHash == old(helpHash)[AudienceHelp := AudienceHint(AudienceVotes(old(EligibleKeys(helpHash)), draw))]
      ensures outcome.Pass? ==>
        && AudienceHelp in helpHash && helpHash[AudienceHelp].AudienceHint?
        && var votes := helpHash[AudienceHelp].votes;
        && votes.Keys == old(EligibleKeys(helpHash))
        && (FiftyFifty !in old(helpHash) ==> votes.Keys == AllKeys)
        && (CorrectAnswerKey(mapping).Some? ==> CorrectAnswerKey(mapping).value in votes)
      ensures EligibleKeys(helpHash) == old(EligibleKeys(helpHash))
      ensures Extends(old(helpHash), helpHash)
      ensures helpHash.Keys <= old(helpHash).Keys + {AudienceHelp}
    {
      if AudienceHelp in helpHash {
        return Fail(HintAlreadyUsed);
      }
      EligibleKeysSize(mapping, helpHash);
      var votes := AudienceVotes(EligibleKeys(helpHash), draw);
      StoreOtherHint(mapping, helpHash, AudienceHelp, AudienceHint(votes));
      helpHash := helpHash[AudienceHelp := AudienceHint(votes)];
      outcome := Pass;
    }

    /**
     * Stores the friend's message naming one key eligible now; `friend` is
     * the friend's name and `roll` the draw of the named key.
     */
    method AddFriendCall(friend: string, roll: nat) returns (outcome: Outcome)
      requires Valid()
      modifies this
      ensures Valid()
      ensures outcome == (if FriendCall in old(helpHash) then Fail(HintAlreadyUsed) else Pass)
      ensures outcome.Fail? ==> helpHash == old(helpHash)
      ensures outcome.Pass? ==>
        && EligibleKeys(old(helpHash)) != {}
        && helpHash == old(helpHash)[FriendCall := FriendHint(
             FriendCallMessage(friend, FriendPick(old(EligibleKeys(helpHash)), roll)))]
      ensures outcome.Pass? ==>
        && FriendCall in helpHash && helpHash[FriendCall].FriendHint?
        && var message := helpHash[FriendCall].message;
        && Contains(message, FriendPhrase)
        && FriendCallKey(message).Some?
        && FriendCallKey(message).value in old(EligibleKeys(helpHash))
      ensures EligibleKeys(helpHash) == old(EligibleKeys(helpHash))
      ensures Extends(old(helpHash), helpHash)
      ensures helpHash.Keys <= old(helpHash).Keys + {FriendCall}
    {
      if FriendCall in helpHash {
        return Fail(HintAlreadyUsed);
      }
      var eligible := EligibleKeys(helpHash);
      EligibleKeysSize(mapping, helpHash);
      var named := FriendPick(eligible, roll);
      var message := FriendCallMessage(friend, named);
      FriendCallMessageNamesKey(friend, named);
      StoreOtherHint(mapping, helpHash, FriendCall, FriendHint(message));
      helpHash := helpHash[FriendCall := FriendHint(message)];
      outcome := Pass;
    }
  }

  /**
   * The combined-hint scenario: with the mapping a:2, b:1, c:4, d:3,
   * fifty-fifty, then a friend call, then the audience; the later hints see
   * only the two kept keys and the earlier results stay in place.
   */
  method AllHelpers(q: Question, roll: nat, friend: string, friendRoll: nat, draw: Key -> nat)
    returns (kept: set<Key>, named: Key, votes: map<Key, nat>)
    ensures B in kept && |kept| == 2
    ensures named in kept
    ensures votes.Keys == kept && B in votes
  {
    var gq := new GameQuestion(q, TestMapping);
    TestMappingExamples(q);
    assert AudienceHelp !in gq.helpHash && FiftyFifty !in gq.helpHash && FriendCall !in gq.helpHash;
    assert |EligibleKeys(gq.helpHash)| == 4;

    var o1 := gq.AddFiftyFifty(roll);
    assert o1 == Pass;
    kept := gq.helpHash[FiftyFifty].kept;
    assert B in kept && |kept| == 2;
    assert |EligibleKeys(gq.helpHash)| == 2;

    var o2 := gq.AddFriendCall(friend, friendRoll);
    assert o2 == Pass;
    assert FiftyFifty in gq.helpHash && gq.helpHash[FiftyFifty].kept == kept;
    assert AudienceHelp !in gq.helpHash;
    var heard := FriendCallKey(gq.helpHash[FriendCall].message);
    assert heard.Some? && heard.value in kept;
    named := heard.value;
    assert |EligibleKeys(gq.helpHash)| == 2;

    var o3 := gq.AddAudienceHelp(draw);
    assert o3 == Pass;
    assert FiftyFifty in gq.helpHash && FriendCall in gq.helpHash;
    votes := gq.helpHash[AudienceHelp].votes;
    assert votes.Keys == kept && B in votes;

    var again := gq.AddFiftyFifty(roll);
    assert again == Fail(HintAlreadyUsed);
  }
}
